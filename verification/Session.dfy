/** One user's token version: the database counter that logout and password change
    raise, its 15-minute cached copy, and the requests that compare a token with it. */
module Session {
  import opened Runs
  import opened TimedStore

  /** A cached version and when it was read from the database. */
  datatype Stamp = Stamp(version: nat, readAt: nat)

  datatype Request = Missed(token: nat) | Held(token: nat, version: nat, readAt: nat)

  type Id = nat

  /** `ended` records when each outdated version was replaced. */
  datatype System = System(
    user: nat, delay: nat, store: Store<Stamp>, version: nat, ended: map<nat, nat>,
    requests: map<Id, Request>, logouts: set<Id>)

  datatype Step =
    | Hit(token: nat)
    | Miss(r: Id, token: nat)
    | Query(r: Id)
    | Finish(r: Id, stored: bool)
    | ChangePassword
    | Logout(l: Id)
    | Invalidate(l: Id)
    | Elsewhere(c: Command<Stamp>)
    | Tick(time: nat)

  function CacheKey(s: System): Key { TokenVersion(s.user) }

  predicate IsCached(s: System)
  {
    s.store.Live(CacheKey(s)) && s.store.entries[CacheKey(s)].value.Json?
  }

  function Cached(s: System): Stamp
    requires IsCached(s)
  {
    s.store.entries[CacheKey(s)].value.data
  }

  function Raised(s: System): System
  {
    s.(version := s.version + 1, ended := s.ended[s.version := s.store.now])
  }

  ghost predicate Next(s: System, l: Step, s': System)
  {
    match l
    case Hit(_) => IsCached(s) && s' == s
    case Miss(r, token) =>
      // not found, or the lookup failed
      r !in s.requests && s' == s.(requests := s.requests[r := Missed(token)])
    case Query(r) =>
      && r in s.requests && s.requests[r].Missed?
      && s' == s.(requests := s.requests[r := Held(s.requests[r].token, s.version, s.store.now)])
    case Finish(r, stored) =>
      && r in s.requests && s.requests[r].Held?
      && var stamp := Stamp(s.requests[r].version, s.requests[r].readAt);
         s' == s.(store := if stored then s.store.Put(CacheKey(s), Json(stamp), TOKEN_TTL) else s.store,
                  requests := s.requests - {r})
    case ChangePassword => s' == Raised(s)
    case Logout(l) => l !in s.logouts && s' == Raised(s).(logouts := s.logouts + {l})
    case Invalidate(l) =>
      l in s.logouts && s' == s.(store := s.store.Drop(CacheKey(s)), logouts := s.logouts - {l})
    case Elsewhere(c) =>
      !c.Advance? && c.key != CacheKey(s) && TimedStore.Next(s.store, c, s'.store) && s' == s.(store := s'.store)
    case Tick(time) => s.store.now <= time && s' == s.(store := s.store.Advance(time))
  }

  /** Step `l` lets a request with `token` through the version check. */
  predicate Accepts(s: System, l: Step, token: nat)
  {
    match l
    case Hit(t) => t == token && IsCached(s) && Cached(s).version == token
    case Finish(r, _) =>
      r in s.requests && s.requests[r].Held? && s.requests[r].token == token && s.requests[r].version == token
    case _ => false
  }

  /** At most `delay` passes between a request's database read and its cache write. */
  ghost predicate TimelyNext(s: System, l: Step, s': System)
  {
    && Next(s, l, s')
    && (l.Tick? ==> forall r :: r in s.requests && s.requests[r].Held? ==> l.time <= s.requests[r].readAt + s.delay)
  }

  ghost predicate Start(s: System)
  {
    s.requests == map[] && s.logouts == {} && s.ended == map[] && CacheKey(s) !in s.store.entries
  }

  // ---------- bounded staleness ----------

  /** The database still held `version` at time `at`, or holds it now. */
  ghost predicate HeldAt(s: System, version: nat, at: nat)
  {
    && at <= s.store.now && version <= s.version
    && (version < s.version ==> version in s.ended && at <= s.ended[version])
  }

  ghost predicate Inv(s: System)
  {
    && (forall v :: v in s.ended ==> v < s.version && s.ended[v] <= s.store.now)
    && (forall r :: r in s.requests && s.requests[r].Held? ==>
          HeldAt(s, s.requests[r].version, s.requests[r].readAt) && s.store.now <= s.requests[r].readAt + s.delay)
    && (CacheKey(s) in s.store.entries ==>
          var entry := s.store.entries[CacheKey(s)];
          && entry.value.Json? && HeldAt(s, entry.value.data.version, entry.value.data.readAt)
          && entry.expiry.Some? && entry.expiry.value <= entry.value.data.readAt + s.delay + TOKEN_TTL)
  }

  lemma {:induction false} InvStep(s: System, l: Step, s': System)
    requires Inv(s) && TimelyNext(s, l, s')
    ensures Inv(s')
  {
  }

  lemma {:induction false} InvAlways(states: seq<System>, steps: seq<Step>)
    requires IsRun(TimelyNext, states, steps) && Start(states[0])
    ensures forall i :: 0 <= i < |states| ==> Inv(states[i])
  {
    forall s, l, s' | Inv(s) && TimelyNext(s, l, s') ensures Inv(s') {
      InvStep(s, l, s');
    }
    InvariantHolds(TimelyNext, Inv, states, steps);
  }

  /** A request passes only if the database held its token version less than 15 minutes
      plus the delay ago, whatever reads, logouts and password changes race with it. */
  lemma {:induction false} AcceptedWasRecent(states: seq<System>, steps: seq<Step>, i: nat, token: nat)
    requires IsRun(TimelyNext, states, steps) && Start(states[0])
    requires i < |steps| && Accepts(states[i], steps[i], token)
    ensures token == states[i].version
         || (token in states[i].ended && states[i].store.now < states[i].ended[token] + states[i].delay + 15 * MINUTE)
  {
    InvAlways(states, steps);
    assert Next(states[i], steps[i], states[i + 1]);
  }

  ghost predicate Later(s: System, t: System)
  {
    && s.store.now <= t.store.now && s.delay == t.delay && s.version <= t.version
    && (forall v :: v in s.ended ==> v in t.ended && t.ended[v] == s.ended[v])
  }

  lemma {:induction false} LaterAlways(states: seq<System>, steps: seq<Step>, i: nat, j: nat)
    requires IsRun(TimelyNext, states, steps) && Start(states[0]) && i <= j < |states|
    ensures Later(states[i], states[j])
  {
    InvAlways(states, steps);
    for k := i to j
      invariant Later(states[i], states[k])
    {
      assert TimelyNext(states[k], steps[k], states[k + 1]);
      assert Inv(states[k]) && Later(states[k], states[k + 1]);
    }
  }

  /** Once that time is over, the token is rejected for good. */
  lemma {:induction false} OutdatedStaysRejected(states: seq<System>, steps: seq<Step>, i: nat, j: nat, token: nat)
    requires IsRun(TimelyNext, states, steps) && Start(states[0])
    requires i <= j < |steps| && token in states[i].ended
    requires states[i].ended[token] + states[i].delay + 15 * MINUTE <= states[i].store.now
    ensures !Accepts(states[j], steps[j], token)
  {
    InvAlways(states, steps);
    LaterAlways(states, steps, i, j);
    if Accepts(states[j], steps[j], token) {
      AcceptedWasRecent(states, steps, j, token);
    }
  }

  // ---------- when logout works at once ----------

  ghost predicate CanStillPass(s: System, token: nat)
  {
    exists states: seq<System>, steps: seq<Step>, k: nat ::
      IsRun(TimelyNext, states, steps) && states[0] == s && k < |steps| && Accepts(states[k], steps[k], token)
  }

  ghost predicate InFlight(s: System, token: nat)
  {
    exists r :: r in s.requests && s.requests[r].Held? && s.requests[r].version == token
  }

  /** No copy of an outdated version is left anywhere. */
  ghost predicate Gone(s: System, token: nat)
  {
    && token < s.version && !InFlight(s, token)
    && (IsCached(s) ==> Cached(s).version != token)
  }

  lemma {:induction false} GoneStep(s: System, l: Step, s': System, token: nat)
    requires Gone(s, token) && TimelyNext(s, l, s')
    ensures Gone(s', token) && !Accepts(s, l, token)
  {
    forall r | r in s'.requests && s'.requests[r].Held? ensures s'.requests[r].version != token {
      assert r in s.requests;
    }
    if l.Finish? {
      assert s.requests[l.r].version != token;
    }
  }

  /** In any state: an outdated token can still get through if and only if a live copy of
      its version is cached, or a request carries it between database read and cache write. */
  lemma {:induction false} CanStillPassIff(s: System, token: nat)
    requires token < s.version
    ensures CanStillPass(s, token) <==> InFlight(s, token) || (IsCached(s) && Cached(s).version == token)
  {
    if InFlight(s, token) {
      var r :| r in s.requests && s.requests[r].Held? && s.requests[r].version == token;
      StaleCopyPasses(s, r);
    } else if IsCached(s) && Cached(s).version == token {
      var states, steps := [s, s], [Hit(token)];
      assert TimelyNext(s, steps[0], s);
      assert IsRun(TimelyNext, states, steps) && Accepts(states[0], steps[0], token);
    } else if CanStillPass(s, token) {
      var states: seq<System>, steps: seq<Step>, k: nat :|
        IsRun(TimelyNext, states, steps) && states[0] == s && k < |steps| && Accepts(states[k], steps[k], token);
      NeverPasses(states, steps, k, token);
    }
  }

  /** Right after a logout has cleared the cache, an old token can still get through if
      and only if some request is between its database read of the old version and its
      cache write. */
  lemma {:induction false} LogoutEffectiveIff(before: System, l: Id, s: System, token: nat)
    requires TimelyNext(before, Invalidate(l), s) && token < s.version
    ensures CanStillPass(s, token) <==> InFlight(s, token)
  {
    CanStillPassIff(s, token);
  }

  /** Right after a password change the old token can still get through if and only if its
      version was cached or in flight before. */
  lemma {:induction false} PasswordChangeEffectiveIff(before: System, s: System)
    requires TimelyNext(before, ChangePassword, s)
    ensures CanStillPass(s, before.version) <==>
              InFlight(before, before.version) || (IsCached(before) && Cached(before).version == before.version)
  {
    CanStillPassIff(s, before.version);
  }

  lemma {:induction false} NeverPasses(states: seq<System>, steps: seq<Step>, k: nat, token: nat)
    requires IsRun(TimelyNext, states, steps) && Gone(states[0], token) && k < |steps|
    ensures !Accepts(states[k], steps[k], token)
  {
    for i := 0 to k
      invariant Gone(states[i], token)
    {
      assert TimelyNext(states[i], steps[i], states[i + 1]);
      GoneStep(states[i], steps[i], states[i + 1], token);
    }
    assert TimelyNext(states[k], steps[k], states[k + 1]);
    GoneStep(states[k], steps[k], states[k + 1], token);
  }

  lemma {:induction false} StaleCopyPasses(s: System, r: Id)
    requires r in s.requests && s.requests[r].Held?
    ensures CanStillPass(s, s.requests[r].version)
  {
    var token := s.requests[r].version;
    var stamp := Stamp(token, s.requests[r].readAt);
    var s' := s.(store := s.store.Put(CacheKey(s), Json(stamp), TOKEN_TTL), requests := s.requests - {r});
    var states, steps := [s, s', s'], [Finish(r, true), Hit(token)];
    assert TimelyNext(s, steps[0], s') && TimelyNext(s', steps[1], s');
    assert IsRun(TimelyNext, states, steps);
    assert Accepts(states[1], steps[1], token);
  }
}
