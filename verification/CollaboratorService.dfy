/** The operations that change who sees a document, run one at a time: they write the
    tables and increment the version counters of cached lists. */
module CollaboratorService {
  import opened Wrappers
  import opened TimedStore
  import opened RedisCache
  import opened Membership

  datatype Reply = Done | BadRequest | Forbidden | Unprocessable | NotFound | Conflict

  // ---------- what the lists show, and which counters announce a change ----------

  function OwnedList(t: Tables, u: User): set<Doc> { set d | d in t.documents && t.documents[d] == u }

  function SharedList(t: Tables, u: User): map<Doc, Role>
  {
    map d | d in t.documents && (d, u) in t.rows && t.documents[d] != u :: t.rows[(d, u)]
  }

  /** A user's counter rises by one exactly when the list it stands for has changed. */
  ghost predicate AnnouncedTo<T(!new)>(t: Tables, t': Tables, s: Store<T>, s': Store<T>, u: User)
  {
    && s'.Counter(OwnedVersion(u)) == s.Counter(OwnedVersion(u)) + One(OwnedList(t', u) != OwnedList(t, u))
    && s'.Counter(SharedVersion(u)) == s.Counter(SharedVersion(u)) + One(SharedList(t', u) != SharedList(t, u))
  }

  ghost predicate Announced<T(!new)>(t: Tables, t': Tables, s: Store<T>, s': Store<T>)
  {
    forall u: User :: AnnouncedTo(t, t', s, s', u)
  }

  ghost predicate OneBump<T(!new)>(s: Store<T>, s': Store<T>, k: Key)
  {
    s'.Counter(k) == s.Counter(k) + 1 && forall other :: other != k ==> s'.Counter(other) == s.Counter(other)
  }

  ghost predicate SameButRow(t: Tables, t': Tables, d: Doc, u: User)
  {
    && t'.documents == t.documents && d in t.documents && t.documents[d] != u
    && t'.rows - {(d, u)} == t.rows - {(d, u)}
  }

  /** Row (d, u) of a non-owner comes, goes or changes, and no other row. */
  ghost predicate RowChanged(t: Tables, t': Tables, d: Doc, u: User) { SameButRow(t, t', d, u) && t'.rows != t.rows }

  lemma {:induction false} SameRow(t: Tables, t': Tables, d: Doc, u: User, k: (Doc, User))
    requires SameButRow(t, t', d, u) && k != (d, u)
    ensures k in t.rows <==> k in t'.rows
    ensures k in t.rows ==> t'.rows[k] == t.rows[k]
  {
    assert k in t.rows <==> k in t.rows - {(d, u)};
    assert k in t'.rows <==> k in t'.rows - {(d, u)};
    assert k in t.rows ==> t.rows[k] == (t.rows - {(d, u)})[k] && t'.rows[k] == (t'.rows - {(d, u)})[k];
  }

  lemma {:induction false} OtherListsKept(t: Tables, t': Tables, d: Doc, u: User, v: User)
    requires RowChanged(t, t', d, u)
    ensures OwnedList(t', v) == OwnedList(t, v)
    ensures v != u ==> SharedList(t', v) == SharedList(t, v)
  {
    if v != u {
      forall e: Doc ensures (e, v) in t.rows <==> (e, v) in t'.rows
                    ensures (e, v) in t.rows ==> t'.rows[(e, v)] == t.rows[(e, v)] {
        SameRow(t, t', d, u, (e, v));
      }
    }
  }

  /** The user's shared list shows all there is to know of the row. */
  lemma {:induction false} RowFromList(t: Tables, t': Tables, d: Doc, u: User)
    requires SameButRow(t, t', d, u) && SharedList(t', u) == SharedList(t, u)
    ensures t'.rows == t.rows
  {
    assert (d, u) in t.rows <==> d in SharedList(t, u);
    assert (d, u) in t'.rows <==> d in SharedList(t', u);
    assert (d, u) in t.rows ==> t.rows[(d, u)] == SharedList(t, u)[d] && t'.rows[(d, u)] == SharedList(t', u)[d];
    forall k ensures k in t.rows <==> k in t'.rows
             ensures k in t.rows ==> t'.rows[k] == t.rows[k] {
      if k != (d, u) { SameRow(t, t', d, u, k); }
    }
  }

  lemma {:induction false} RowChangeAnnouncedTo<T(!new)>(
      t: Tables, t': Tables, d: Doc, u: User, s: Store<T>, s': Store<T>, v: User)
    requires RowChanged(t, t', d, u) && OneBump(s, s', SharedVersion(u))
    ensures AnnouncedTo(t, t', s, s', v)
  {
    OtherListsKept(t, t', d, u, v);
    if v == u && SharedList(t', u) == SharedList(t, u) {
      RowFromList(t, t', d, u);
      assert false;
    }
  }

  lemma {:induction false} RowChangeAnnounced<T(!new)>(t: Tables, t': Tables, d: Doc, u: User, s: Store<T>,
      s': Store<T>)
    requires RowChanged(t, t', d, u) && OneBump(s, s', SharedVersion(u))
    ensures Announced(t, t', s, s')
  {
    forall v: User ensures AnnouncedTo(t, t', s, s', v) {
      RowChangeAnnouncedTo(t, t', d, u, s, s', v);
    }
  }

  lemma {:induction false} CreateChangesOne(t: Tables, u: User, t': Tables, v: User)
    requires OneOwner(t) && Membership.Next(t, Step.Create(u), t')
    ensures OwnedList(t', v) != OwnedList(t, v) <==> v == u
    ensures SharedList(t', v) == SharedList(t, v)
  {
    assert t.nextDoc !in OwnedList(t, v) && (t.nextDoc, v) !in t.rows;
    if v == u {
      assert t.nextDoc in OwnedList(t', u);
    }
    forall d | d in t.documents ensures (d, v) in t.rows <==> (d, v) in t'.rows {
    }
  }

  lemma {:induction false} CreateAnnouncedTo<T(!new)>(t: Tables, u: User, t': Tables, s: Store<T>, s': Store<T>,
      v: User)
    requires OneOwner(t) && Membership.Next(t, Step.Create(u), t') && OneBump(s, s', OwnedVersion(u))
    ensures AnnouncedTo(t, t', s, s', v)
  {
    CreateChangesOne(t, u, t', v);
  }

  lemma {:induction false} CreateAnnounced<T(!new)>(t: Tables, u: User, t': Tables, s: Store<T>, s': Store<T>)
    requires OneOwner(t) && Membership.Next(t, Step.Create(u), t') && OneBump(s, s', OwnedVersion(u))
    ensures Announced(t, t', s, s')
  {
    forall v: User ensures AnnouncedTo(t, t', s, s', v) {
      CreateAnnouncedTo(t, u, t', s, s', v);
    }
  }

  lemma {:induction false} DeleteAnnouncedTo<T(!new)>(
      t: Tables, d: Doc, t': Tables, listed: seq<Collaborator>, s: Store<T>, s': Store<T>, v: User)
    requires OneOwner(t) && Lists(t, d, listed) && t' == Written(t, Delete(d))
    requires forall k :: s'.Counter(k) == s.Counter(k) + One(Bumps(listed, k))
    ensures AnnouncedTo(t, t', s, s', v)
  {
    FootprintIsExact(t, d, listed, v);
    assert OwnedList(t', v) == OwnedList(t, v) - {d};
    assert d in OwnedList(t, v) <==> InOwnedList(t, d, v);
    assert SharedList(t', v) == SharedList(t, v) - {d};
    assert d in SharedList(t, v) <==> InSharedList(t, d, v);
  }

  lemma {:induction false} DeleteAnnounced<T(!new)>(
      t: Tables, d: Doc, t': Tables, listed: seq<Collaborator>, s: Store<T>, s': Store<T>)
    requires OneOwner(t) && Lists(t, d, listed) && t' == Written(t, Delete(d))
    requires forall k :: s'.Counter(k) == s.Counter(k) + One(Bumps(listed, k))
    ensures Announced(t, t', s, s')
  {
    forall v: User ensures AnnouncedTo(t, t', s, s', v) {
      DeleteAnnouncedTo(t, d, t', listed, s, s', v);
    }
  }

  /** The collaborators are listed in `t0`, the document is deleted from `t`, and in between
      its rows may change. The owner's list is always announced; a shared list changes
      without an announcement if and only if its user was added in between. */
  lemma {:induction false} MissedByDeletionIff(t0: Tables, t: Tables, d: Doc, listed: seq<Collaborator>, u: User)
    requires OneOwner(t0) && OneOwner(t) && Lists(t0, d, listed)
    requires d in t0.documents && d in t.documents && t.documents[d] == t0.documents[d]
    ensures var t' := Written(t, Delete(d));
            && (OwnedList(t', u) != OwnedList(t, u) <==> Bumps(listed, OwnedVersion(u)))
            && (SharedList(t', u) != SharedList(t, u) && !Bumps(listed, SharedVersion(u))
                <==> (d, u) in t.rows && (d, u) !in t0.rows)
  {
    var t' := Written(t, Delete(d));
    FootprintIsExact(t0, d, listed, u);
    assert OwnedList(t', u) == OwnedList(t, u) - {d};
    assert d in OwnedList(t, u) <==> InOwnedList(t, d, u);
    assert SharedList(t', u) == SharedList(t, u) - {d};
    assert d in SharedList(t, u) <==> InSharedList(t, d, u);
    assert IsOwner(t0, d, t0.documents[d]);
  }

  class Service<T(!new)> {
    const cache: Cache<T>
    var users: set<User>
    var documents: map<Doc, User>
    var titles: map<Doc, string>
    var rows: map<(Doc, User), Role>
    var nextDoc: Doc

    ghost function View(): Tables
      reads this
    {
      Tables(documents, rows, nextDoc, map[])
    }

    /** One owner for each document, and only integers behind the counters. */
    ghost predicate Valid()
      reads this, cache
    {
      OneOwner(View()) && CountersOnly(cache.View())
    }

    constructor (cache: Cache<T>, users: set<User>)
      requires CountersOnly(cache.View())
      ensures Valid() && this.cache == cache && documents == map[]
    {
      this.cache, this.users := cache, users;
      documents, titles, rows, nextDoc := map[], map[], map[], 0;
    }

    /** The stored role; `owner` names exactly the document's user_id. */
    method GetUserRole(doc: Doc, user: User) returns (role: Option<Role>)
      ensures role.None? <==> (doc, user) !in rows
      ensures role.Some? ==> rows[(doc, user)] == role.value
      ensures OneOwner(View()) ==> (role == Some(Owner) <==> doc in documents && documents[doc] == user)
      ensures OneOwner(View()) && doc !in documents ==> role.None?
    {
      assert IsOwner(View(), doc, user) <==> (doc, user) in rows && rows[(doc, user)] == Owner;
      role := if (doc, user) in rows then Some(rows[(doc, user)]) else None;
    }

    method ListDocumentCollaborators(doc: Doc) returns (listed: seq<Collaborator>)
      ensures Lists(View(), doc, listed)
    {
      listed := [];
      var left := set k | k in rows && k.0 == doc :: k.1;
      while left != {}
        invariant forall u :: u in left ==> (doc, u) in rows && forall c :: c in listed ==> c.user != u
        invariant forall u: User :: (doc, u) in rows ==> u in left || Collaborator(u, rows[(doc, u)]) in listed
        invariant forall c :: c in listed ==> (doc, c.user) in rows && rows[(doc, c.user)] == c.role
        invariant forall i, j :: 0 <= i < j < |listed| ==> listed[i].user != listed[j].user
        decreases left
      {
        var u :| u in left;
        listed := listed + [Collaborator(u, rows[(doc, u)])];
        left := left - {u};
      }
    }

    method Increment(k: Key)
      requires CountersOnly(cache.View()) && (k.OwnedVersion? || k.SharedVersion?)
      modifies cache`entries
      ensures CountersOnly(cache.View())
      ensures if cache.hasClient then OneBump(old(cache.View()), cache.View(), k) else cache.View() == old(cache.View())
    {
      cache.IncrementVersion(k);
    }

    method CreateUserDocument(user: User, title: string) returns (doc: Doc)
      requires Valid()
      modifies this, cache`entries
      ensures Valid() && users == old(users)
      ensures Membership.Next(old(View()), Step.Create(user), View()) && doc == old(nextDoc)
      ensures titles == old(titles)[doc := title]
      ensures cache.hasClient ==> Announced(old(View()), View(), old(cache.View()), cache.View())
    {
      doc := nextDoc;
      documents, rows, titles := documents[doc := user], rows[(doc, user) := Owner], titles[doc := title];
      nextDoc := nextDoc + 1;
      CreateAddsOwner(old(View()), user, View());
      Increment(OwnedVersion(user));
      if cache.hasClient {
        CreateAnnounced(old(View()), user, View(), old(cache.View()), cache.View());
      }
    }

    /** Rename is for the user_id of the document and bumps every list that shows it, unless
        the worker pool drops the task. */
    method RenameDocument(doc: Doc, user: User, title: string, accepted: bool) returns (reply: Reply)
      requires Valid()
      modifies this`titles, cache`entries
      ensures Valid()
      ensures reply == if title == "" then BadRequest
                       else if doc in documents && documents[doc] == user then Done else NotFound
      ensures titles == if reply.Done? then old(titles)[doc := title] else old(titles)
      ensures !reply.Done? || !accepted || !cache.hasClient ==> cache.View() == old(cache.View())
      ensures reply.Done? && accepted && cache.hasClient ==> forall u: User ::
                && cache.View().Counter(OwnedVersion(u)) ==
                     old(cache.View()).Counter(OwnedVersion(u)) + One(InOwnedList(View(), doc, u))
                && cache.View().Counter(SharedVersion(u)) ==
                     old(cache.View()).Counter(SharedVersion(u)) + One(InSharedList(View(), doc, u))
    {
      if title == "" {
        return BadRequest;
      }
      if doc !in documents || documents[doc] != user {
        return NotFound;
      }
      titles := titles[doc := title];
      var listed := ListDocumentCollaborators(doc);
      if accepted {
        InvalidateLists(cache, listed);
      }
      forall u: User
        ensures Bumps(listed, OwnedVersion(u)) <==> InOwnedList(View(), doc, u)
        ensures Bumps(listed, SharedVersion(u)) <==> InSharedList(View(), doc, u)
      {
        FootprintIsExact(View(), doc, listed, u);
      }
      reply := Done;
    }

    /** The role comes from the request; unless it names an owner, there stays one owner. */
    method AddCollaborator(doc: Doc, requester: User, target: User, role: Role) returns (reply: Reply)
      requires Valid()
      modifies this`rows, cache`entries
      ensures Valid() <==> !(reply.Done? && role.Owner?)
      ensures CountersOnly(cache.View())
      ensures reply == if !IsOwner(old(View()), doc, requester) then Forbidden
                       else if requester == target || target !in users then Unprocessable
                       else if (doc, target) in old(rows) then Conflict else Done
      ensures rows == if reply.Done? then old(rows)[(doc, target) := role] else old(rows)
      ensures cache.hasClient ==> Announced(old(View()), View(), old(cache.View()), cache.View())
    {
      var requesterRole := GetUserRole(doc, requester);
      if requesterRole != Some(Owner) {
        return Forbidden;
      }
      if requester == target || target !in users {
        return Unprocessable;
      }
      if (doc, target) in rows {
        return Conflict;
      }
      OwnerIs(View(), doc, requester);
      rows := rows[(doc, target) := role];
      RowKeepsOwner(old(View()), View(), doc, target);
      assert role.Owner? ==> IsOwner(View(), doc, target);
      Increment(SharedVersion(target));
      if cache.hasClient {
        RowChangeAnnounced(old(View()), View(), doc, target, old(cache.View()), cache.View());
      }
      reply := Done;
    }

    method ChangeCollaboratorRole(doc: Doc, requester: User, target: User, newRole: Role) returns (reply: Reply)
      requires Valid()
      modifies this`rows, cache`entries
      ensures Valid() <==> !(reply.Done? && newRole.Owner?)
      ensures CountersOnly(cache.View())
      ensures reply == if !IsOwner(old(View()), doc, requester) then Forbidden
                       else if requester == target then Unprocessable
                       else if (doc, target) !in old(rows) then NotFound
                       else if old(rows)[(doc, target)] == newRole then Unprocessable else Done
      ensures rows == if reply.Done? then old(rows)[(doc, target) := newRole] else old(rows)
      ensures cache.hasClient ==> Announced(old(View()), View(), old(cache.View()), cache.View())
    {
      var requesterRole := GetUserRole(doc, requester);
      if requesterRole != Some(Owner) {
        return Forbidden;
      }
      if requester == target {
        return Unprocessable;
      }
      var currentRole := GetUserRole(doc, target);
      if currentRole == Some(newRole) {
        return Unprocessable;
      }
      if (doc, target) !in rows {
        return NotFound;
      }
      OwnerIs(View(), doc, requester);
      rows := rows[(doc, target) := newRole];
      RowKeepsOwner(old(View()), View(), doc, target);
      assert newRole.Owner? ==> IsOwner(View(), doc, target);
      Increment(SharedVersion(target));
      if cache.hasClient {
        RowChangeAnnounced(old(View()), View(), doc, target, old(cache.View()), cache.View());
      }
      reply := Done;
    }

    method RemoveCollaborator(doc: Doc, requester: User, target: User) returns (reply: Reply)
      requires Valid()
      modifies this`rows, cache`entries
      ensures Valid()
      ensures reply == if !IsOwner(old(View()), doc, requester) then Forbidden
                       else if requester == target then Unprocessable
                       else if (doc, target) !in old(rows) then NotFound else Done
      ensures rows == if reply.Done? then old(rows) - {(doc, target)} else old(rows)
      ensures cache.hasClient ==> Announced(old(View()), View(), old(cache.View()), cache.View())
    {
      var requesterRole := GetUserRole(doc, requester);
      if requesterRole != Some(Owner) {
        return Forbidden;
      }
      if requester == target {
        return Unprocessable;
      }
      if (doc, target) !in rows {
        return NotFound;
      }
      OwnerIs(View(), doc, requester);
      rows := rows - {(doc, target)};
      RowKeepsOwner(old(View()), View(), doc, target);
      Increment(SharedVersion(target));
      if cache.hasClient {
        RowChangeAnnounced(old(View()), View(), doc, target, old(cache.View()), cache.View());
      }
      reply := Done;
    }

    /** The collaborators are listed before the rows go, and their lists bumped after,
        unless the worker pool drops the task. */
    method DeleteDocument(doc: Doc, user: User, accepted: bool) returns (reply: Reply)
      requires Valid()
      modifies this, cache`entries
      ensures Valid() && users == old(users) && nextDoc == old(nextDoc)
      ensures reply == if (doc, user) !in old(rows) then Unprocessable
                       else if !IsOwner(old(View()), doc, user) then Forbidden else Done
      ensures View() == if reply.Done? then Written(old(View()), Delete(doc)) else old(View())
      ensures !accepted || !cache.hasClient ==> cache.View() == old(cache.View())
      ensures accepted && cache.hasClient ==> Announced(old(View()), View(), old(cache.View()), cache.View())
    {
      var role := GetUserRole(doc, user);
      if role.None? {
        return Unprocessable;
      }
      if role != Some(Owner) {
        return Forbidden;
      }
      var listed := ListDocumentCollaborators(doc);
      documents, titles := documents - {doc}, titles - {doc};
      rows := map k | k in rows && k.0 != doc :: rows[k];
      DeleteKeepsOwner(old(View()), doc, View());
      if accepted {
        InvalidateLists(cache, listed);
      }
      if accepted && cache.hasClient {
        DeleteAnnounced(old(View()), doc, View(), listed, old(cache.View()), cache.View());
      }
      reply := Done;
    }
  }

  lemma OwnerIs(t: Tables, d: Doc, u: User)
    requires OneOwner(t) && IsOwner(t, d, u)
    ensures d in t.documents && t.documents[d] == u
  {
  }

  lemma {:induction false} RowKeepsOwner(t: Tables, t': Tables, d: Doc, u: User)
    requires OneOwner(t) && t' == t.(rows := t'.rows) && RowChanged(t, t', d, u)
    ensures OneOwner(t') <==> !IsOwner(t', d, u)
  {
    if IsOwner(t', d, u) {
      return;
    }
    forall e: Doc, v: User | e in t'.documents ensures IsOwner(t', e, v) <==> v == t'.documents[e] {
      assert IsOwner(t, e, v) <==> v == t.documents[e];
      if (e, v) != (d, u) { SameRow(t, t', d, u, (e, v)); }
    }
    forall e: Doc, v: User | (e, v) in t'.rows ensures e in t'.documents {
      if (e, v) != (d, u) { SameRow(t, t', d, u, (e, v)); }
    }
  }

  lemma {:induction false} DeleteKeepsOwner(t: Tables, d: Doc, t': Tables)
    requires OneOwner(t) && t' == Written(t, Delete(d))
    ensures OneOwner(t')
  {
    forall e: Doc, v: User | e in t'.documents ensures IsOwner(t', e, v) <==> v == t'.documents[e] {
      assert IsOwner(t, e, v) <==> v == t.documents[e];
    }
  }
}
