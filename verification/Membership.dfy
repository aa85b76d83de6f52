/** Who owns and who shares a document. Each operation checks the requester's role in one
    statement and writes in another, with other requests in between. */
module Membership {
  import opened Runs
  import opened TimedStore
  import opened RedisCache

  type Doc = nat
  type User = nat
  type Id = nat

  datatype Role = Owner | Editor | Viewer

  datatype Request =
    | Add(doc: Doc, target: User, role: Role)
    | Change(doc: Doc, target: User, role: Role)
    | Remove(doc: Doc, target: User)
    | Delete(doc: Doc)

  /** `documents` maps each live document to its user_id; `admitted` are the requests that
      passed their checks and have not written yet. */
  datatype Tables = Tables(documents: map<Doc, User>, rows: map<(Doc, User), Role>, nextDoc: Doc,
                           admitted: map<Id, Request>)

  datatype Step =
    | Create(user: User)
    | Check(id: Id, requester: User, request: Request)
    | Write(id: Id)
    | Abandon(id: Id)

  predicate IsOwner(s: Tables, doc: Doc, user: User) { (doc, user) in s.rows && s.rows[(doc, user)].Owner? }

  /** The first check of the service. What it reads afterwards, the target's account or
      role, can only make it abandon the request. */
  predicate Passes(s: Tables, requester: User, request: Request)
  {
    IsOwner(s, request.doc, requester) && (!request.Delete? ==> requester != request.target)
  }

  /** The write of an admitted request succeeds: foreign key, unique key and affected rows. */
  predicate CanWrite(s: Tables, request: Request)
  {
    match request
    case Add(doc, target, _) => doc in s.documents && (doc, target) !in s.rows
    case Change(doc, target, _) => (doc, target) in s.rows
    case Remove(doc, target) => (doc, target) in s.rows
    case Delete(_) => true
  }

  function Written(s: Tables, request: Request): Tables
  {
    match request
    case Add(doc, target, role) => s.(rows := s.rows[(doc, target) := role])
    case Change(doc, target, role) => s.(rows := s.rows[(doc, target) := role])
    case Remove(doc, target) => s.(rows := s.rows - {(doc, target)})
    case Delete(doc) =>
      s.(documents := s.documents - {doc}, rows := map k | k in s.rows && k.0 != doc :: s.rows[k])
  }

  ghost predicate Next(s: Tables, l: Step, s': Tables)
  {
    match l
    case Create(user) =>
      s' == s.(documents := s.documents[s.nextDoc := user], rows := s.rows[(s.nextDoc, user) := Owner],
               nextDoc := s.nextDoc + 1)
    case Check(id, requester, request) =>
      && id !in s.admitted && Passes(s, requester, request)
      && s' == s.(admitted := s.admitted[id := request])
    case Write(id) =>
      && id in s.admitted && CanWrite(s, s.admitted[id])
      && s' == Written(s, s.admitted[id]).(admitted := s.admitted - {id})
    case Abandon(id) => id in s.admitted && s' == s.(admitted := s.admitted - {id})
  }

  /** The request validation in front of the service lets only editor and viewer through. */
  ghost predicate ValidatedNext(s: Tables, l: Step, s': Tables)
  {
    Next(s, l, s') && (l.Check? && (l.request.Add? || l.request.Change?) ==> !l.request.role.Owner?)
  }

  // ---------- one owner ----------

  /** Live documents have exactly one owner row, that of their user_id; rows belong to
      live documents. */
  ghost predicate OneOwner(s: Tables)
  {
    && (forall d :: d in s.documents ==> d < s.nextDoc)
    && (forall d: Doc, u: User :: (d, u) in s.rows ==> d in s.documents)
    && (forall d: Doc, u: User :: d in s.documents ==> (IsOwner(s, d, u) <==> u == s.documents[d]))
  }

  /** An admitted request cannot touch the owner row any more. */
  ghost predicate Harmless(s: Tables, request: Request)
  {
    && request.doc < s.nextDoc
    && (request.Add? || request.Change? ==> !request.role.Owner?)
    && (!request.Delete? && request.doc in s.documents ==> request.target != s.documents[request.doc])
  }

  ghost predicate Inv(s: Tables)
  {
    OneOwner(s) && forall id :: id in s.admitted ==> Harmless(s, s.admitted[id])
  }

  lemma {:induction false} WriteKeepsOwner(s: Tables, id: Id, s': Tables)
    requires Inv(s) && Next(s, Write(id), s')
    ensures OneOwner(s')
  {
    var request := s.admitted[id];
    assert Harmless(s, request);
    forall d: Doc, u: User | d in s'.documents ensures IsOwner(s', d, u) <==> u == s'.documents[d] {
      assert d in s.documents && (IsOwner(s, d, u) <==> u == s.documents[d]);
    }
    forall d: Doc, u: User | (d, u) in s'.rows ensures d in s'.documents {
      assert (d, u) in s.rows || d in s.documents;
    }
  }

  lemma {:induction false} CreateAddsOwner(s: Tables, user: User, s': Tables)
    requires Inv(s) && Next(s, Create(user), s')
    ensures OneOwner(s')
  {
    forall d: Doc, u: User | d in s'.documents ensures IsOwner(s', d, u) <==> u == s'.documents[d] {
      if d == s.nextDoc {
        assert (d, u) !in s.rows;
      } else {
        assert IsOwner(s, d, u) <==> u == s.documents[d];
      }
    }
  }

  lemma {:induction false} HarmlessStep(s: Tables, l: Step, s': Tables, id: Id)
    requires Inv(s) && ValidatedNext(s, l, s') && id in s'.admitted
    ensures Harmless(s', s'.admitted[id])
  {
    if id in s.admitted {
      assert Harmless(s, s.admitted[id]);
    } else {
      assert IsOwner(s, l.request.doc, l.requester);
    }
  }

  lemma {:induction false} InvStep(s: Tables, l: Step, s': Tables)
    requires Inv(s) && ValidatedNext(s, l, s')
    ensures Inv(s')
  {
    forall id | id in s'.admitted ensures Harmless(s', s'.admitted[id]) {
      HarmlessStep(s, l, s', id);
    }
    match l
    case Write(id) => WriteKeepsOwner(s, id, s');
    case Create(user) => CreateAddsOwner(s, user, s');
    case _ => assert forall d: Doc, u: User :: IsOwner(s', d, u) == IsOwner(s, d, u);
  }

  /** In every run of creations, additions, role changes, removals and deletions, checks and
      writes interleaved at will, each live document has exactly one owner. */
  lemma {:induction false} OwnerUnique(states: seq<Tables>, steps: seq<Step>, i: nat, d: Doc, u: User)
    requires IsRun(ValidatedNext, states, steps) && states[0] == Tables(map[], map[], 0, map[])
    requires i < |states| && d in states[i].documents
    ensures IsOwner(states[i], d, u) <==> u == states[i].documents[d]
  {
    forall s, l, s' | Inv(s) && ValidatedNext(s, l, s') ensures Inv(s') {
      InvStep(s, l, s');
    }
    InvariantHolds(ValidatedNext, Inv, states, steps);
  }

  /** The service itself does not look at the role it is given: one unvalidated request
      makes a second owner. */
  lemma {:induction false} ValidationNeeded(s: Tables, id: Id, d: Doc, u: User)
    requires OneOwner(s) && d in s.documents && (d, u) !in s.rows && id !in s.admitted
    ensures var s1 := s.(admitted := s.admitted[id := Add(d, u, Owner)]);
            var s2 := Written(s1, Add(d, u, Owner)).(admitted := s1.admitted - {id});
            && IsRun(Next, [s, s1, s2], [Check(id, s.documents[d], Add(d, u, Owner)), Write(id)])
            && IsOwner(s2, d, u) && IsOwner(s2, d, s.documents[d]) && u != s.documents[d]
  {
    assert IsOwner(s, d, s.documents[d]);
  }

  // ---------- the invalidation footprint ----------

  /** The two list queries. */
  predicate InOwnedList(s: Tables, d: Doc, u: User) { d in s.documents && s.documents[d] == u }

  predicate InSharedList(s: Tables, d: Doc, u: User)
  {
    (d, u) in s.rows && d in s.documents && s.documents[d] != u
  }

  datatype Collaborator = Collaborator(user: User, role: Role)

  function VersionKey(c: Collaborator): Key
  {
    if c.role.Owner? then OwnedVersion(c.user) else SharedVersion(c.user)
  }

  /** `listed` is the answer to the query for the collaborators of `d`. */
  ghost predicate Lists(s: Tables, d: Doc, listed: seq<Collaborator>)
  {
    && (forall c :: c in listed <==> (d, c.user) in s.rows && s.rows[(d, c.user)] == c.role)
    && (forall i, j :: 0 <= i < j < |listed| ==> listed[i].user != listed[j].user)
  }

  ghost predicate Bumps(listed: seq<Collaborator>, k: Key)
  {
    exists i :: 0 <= i < |listed| && VersionKey(listed[i]) == k
  }

  /** The loops bump the counter of exactly those lists that show the document. */
  lemma {:induction false} FootprintIsExact(s: Tables, d: Doc, listed: seq<Collaborator>, u: User)
    requires OneOwner(s) && Lists(s, d, listed)
    ensures Bumps(listed, OwnedVersion(u)) <==> InOwnedList(s, d, u)
    ensures Bumps(listed, SharedVersion(u)) <==> InSharedList(s, d, u)
  {
    if (d, u) in s.rows {
      var c := Collaborator(u, s.rows[(d, u)]);
      assert c in listed;
      var i :| 0 <= i < |listed| && listed[i] == c;
      assert VersionKey(listed[i]) == VersionKey(c);
    }
    forall i | 0 <= i < |listed|
      ensures (d, listed[i].user) in s.rows && s.rows[(d, listed[i].user)] == listed[i].role
    {
      assert listed[i] in listed;
    }
    if d in s.documents {
      assert IsOwner(s, d, u) <==> u == s.documents[d];
    }
  }

  /** Counters hold integers. */
  ghost predicate CountersOnly<T(!new)>(store: Store<T>)
  {
    forall k: Key :: (k.OwnedVersion? || k.SharedVersion?) && store.Live(k) ==> store.entries[k].value.Number?
  }

  ghost predicate SameEntry<T(!new)>(s: Store<T>, s': Store<T>, k: Key)
  {
    && (k in s.entries <==> k in s'.entries)
    && (k in s.entries ==> s'.entries[k] == s.entries[k])
  }

  /** The loop of rename, update and delete: one increment for each collaborator. */
  method InvalidateLists<T(!new)>(cache: Cache<T>, listed: seq<Collaborator>)
    requires forall i, j :: 0 <= i < j < |listed| ==> listed[i].user != listed[j].user
    requires CountersOnly(cache.View())
    modifies cache`entries
    ensures CountersOnly(cache.View())
    ensures cache.hasClient ==> forall k ::
              cache.View().Counter(k) == old(cache.View()).Counter(k) + (if Bumps(listed, k) then 1 else 0)
    ensures !cache.hasClient ==> cache.View() == old(cache.View())
    ensures forall k :: !Bumps(listed, k) ==> SameEntry(old(cache.View()), cache.View(), k)
  {
    for i := 0 to |listed|
      invariant CountersOnly(cache.View())
      invariant forall k :: !Bumps(listed[..i], k) ==> SameEntry(old(cache.View()), cache.View(), k)
      invariant cache.hasClient ==> forall k ::
                  cache.View().Counter(k) == old(cache.View()).Counter(k) + (if Bumps(listed[..i], k) then 1 else 0)
      invariant !cache.hasClient ==> cache.View() == old(cache.View())
    {
      var key := VersionKey(listed[i]);
      assert !Bumps(listed[..i], key);
      label before:
      cache.IncrementVersion(key);
      forall k ensures Bumps(listed[..i + 1], k) <==> Bumps(listed[..i], k) || k == key {
        BumpsOneMore(listed, i, k);
      }
      forall k | !Bumps(listed[..i + 1], k) ensures SameEntry(old(cache.View()), cache.View(), k) {
        assert !Bumps(listed[..i], k);
        assert SameEntry(old(cache.View()), old@before(cache.View()), k);
        assert SameEntry(old@before(cache.View()), cache.View(), k);
      }
    }
    assert listed[..|listed|] == listed;
  }

  lemma {:induction false} BumpsOneMore(listed: seq<Collaborator>, i: nat, k: Key)
    requires i < |listed|
    ensures Bumps(listed[..i + 1], k) <==> Bumps(listed[..i], k) || k == VersionKey(listed[i])
  {
    assert forall j :: 0 <= j < i ==> listed[..i][j] == listed[..i + 1][j];
    assert listed[..i + 1][i] == listed[i];
  }
}
