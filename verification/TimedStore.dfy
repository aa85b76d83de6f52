/** The keyed store behind the cache: values with an optional expiry time, read through
    a clock. One function per command the server sends. */
module TimedStore {
  import opened Runs
  import opened Wrappers

  // Times are in milliseconds, the store's own resolution.
  const SECOND: nat := 1000
  const MINUTE: nat := 60 * SECOND
  const HOUR: nat := 60 * MINUTE
  const DAY: nat := 24 * HOUR

  const LOCK_TTL: nat := 30 * SECOND
  const COOLDOWN: nat := MINUTE
  const PAGE_TTL: nat := 24 * HOUR
  const VERSION_TTL: nat := 7 * DAY
  const TOKEN_TTL: nat := 15 * MINUTE

  /** The key formats of the server; distinct constructors stand for distinct formats. */
  datatype Key =
    | SnapshotLock(doc: nat)
    | InvalidationCooldown(doc: nat)
    | OwnedVersion(user: nat)
    | SharedVersion(user: nat)
    | OwnedPage(user: nat, version: int, page: int, size: int)
    | SharedPage(user: nat, version: int, page: int, size: int)
    | TokenVersion(user: nat)

  /** A bare string, an integer counter or a JSON document. */
  datatype Value<T> = Flag | Number(n: int) | Json(data: T)

  datatype Entry<T> = Entry(value: Value<T>, expiry: Option<nat>)

  datatype Store<T> = Store(now: nat, entries: map<Key, Entry<T>>) {

    predicate Live(k: Key)
    {
      k in entries && (entries[k].expiry.Some? ==> now < entries[k].expiry.value)
    }

    function Lookup(k: Key): Option<Value<T>> { if Live(k) then Some(entries[k].value) else None }

    /** A missing, expired or non-integer value counts as 0. */
    function Counter(k: Key): int
    {
      if Live(k) && entries[k].value.Number? then entries[k].value.n else 0
    }

    /** SET key value PX ttl. */
    function Put(k: Key, v: Value<T>, ttl: nat): Store<T>
    {
      Store(now, entries[k := Entry(v, Some(now + ttl))])
    }

    /** SET key value PX ttl NX; succeeds when the key is not live. */
    function PutIfAbsent(k: Key, v: Value<T>, ttl: nat): Store<T>
    {
      if Live(k) then this else Put(k, v, ttl)
    }

    /** DEL key. */
    function Drop(k: Key): Store<T> { Store(now, entries - {k}) }

    /** INCR key: starts a missing counter at 1 without expiry, keeps the expiry of an
        existing one, and fails on anything that is not an integer. */
    function Incr(k: Key): Store<T>
    {
      if !Live(k) then Store(now, entries[k := Entry(Number(1), None)])
      else if entries[k].value.Number? then
        Store(now, entries[k := Entry(Number(entries[k].value.n + 1), entries[k].expiry)])
      else this
    }

    /** EXPIRE key ttl. */
    function Expire(k: Key, ttl: nat): Store<T>
    {
      if Live(k) then Store(now, entries[k := Entry(entries[k].value, Some(now + ttl))]) else this
    }

    function Advance(time: nat): Store<T> { Store(time, entries) }
  }

  datatype Command<T> =
    | Put(key: Key, value: Value<T>, ttl: nat)
    | PutIfAbsent(key: Key, value: Value<T>, ttl: nat)
    | Drop(key: Key)
    | Incr(key: Key)
    | Expire(key: Key, ttl: nat)
    | Advance(time: nat)

  ghost predicate Next<T(!new)>(s: Store<T>, c: Command<T>, s': Store<T>)
  {
    match c
    case Put(k, v, ttl) => s' == s.Put(k, v, ttl)
    case PutIfAbsent(k, v, ttl) => s' == s.PutIfAbsent(k, v, ttl)
    case Drop(k) => s' == s.Drop(k)
    case Incr(k) => s' == s.Incr(k)
    case Expire(k, ttl) => s' == s.Expire(k, ttl)
    case Advance(t) => s.now <= t && s' == s.Advance(t)
  }

  /** INCR followed by EXPIRE adds one to an integer counter and touches no other key. */
  lemma {:induction false} BumpCounts<T(!new)>(s: Store<T>, k: Key, ttl: nat)
    requires ttl > 0
    ensures (s.Live(k) ==> s.entries[k].value.Number?) ==> s.Incr(k).Expire(k, ttl).Counter(k) == s.Counter(k) + 1
    ensures forall other :: other != k ==> s.Incr(k).Expire(k, ttl).Counter(other) == s.Counter(other)
  {
    var bumped := s.Incr(k);
    assert bumped.Live(k);
    forall other | other != k ensures bumped.Expire(k, ttl).Counter(other) == s.Counter(other) {
      assert bumped.Live(other) == s.Live(other);
    }
  }

  /** What a SET stored is read back until its time is over and not after, as long as no
      other command touches the key. */
  lemma {:induction false} ReadBackIff<T(!new)>(
      states: seq<Store<T>>, steps: seq<Command<T>>, i: nat, j: nat, k: Key, v: Value<T>, ttl: nat)
    requires IsRun(Next<T>, states, steps) && i < j < |states| && steps[i] == Command.Put(k, v, ttl)
    requires forall m :: i < m < j ==> steps[m].Advance? || steps[m].key != k
    ensures states[j].Lookup(k) == Some(v) <==> states[j].now < states[i].now + ttl
    ensures states[j].Lookup(k) == None <==> states[i].now + ttl <= states[j].now
  {
    assert Next(states[i], steps[i], states[i + 1]);
    for m := i + 1 to j
      invariant k in states[m].entries && states[m].entries[k] == Entry(v, Some(states[i].now + ttl))
    {
      assert Next(states[m], steps[m], states[m + 1]);
    }
  }
}
