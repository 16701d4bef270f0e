/** The two MongoDB collections behind the service and the helpers that read and
    write them. Each collection is a map keyed by the field its unique index
    covers (`id` for lists, `username` for access records), so two documents can
    never share a key. Every writing helper is a pure transition from a state to
    a status and the next state.
 */
module Db {
  import opened Records

  /** A stored list document: the `list` struct's fields plus the `guests`
      array that sharing pushes to. The struct itself has no `guests` field. */
  datatype ListDoc = ListDoc(lastChanged: Time, content: string, guests: seq<string>)

  /** A stored access document. A lookup decodes only `lists`. The `owned` and
      `shared` arrays are written by the push and pull helpers and are read by
      nothing in this model. */
  datatype AccessDoc = AccessDoc(lists: seq<ListLink>, owned: seq<ListLink>, shared: seq<ListLink>)

  datatype State = State(lists: map<string, ListDoc>, access: map<string, AccessDoc>)

  /** What a writing helper returns: its `error` (nil as `Ok(())`) and the next state. */
  datatype Step = Step(status: Result<()>, next: State)

  /** `m'` agrees with `m` on every key other than `k`. */
  ghost predicate SameExcept<K, V>(m: map<K, V>, m': map<K, V>, k: K)
  {
    && m.Keys - {k} == m'.Keys - {k}
    && forall x :: x in m && x != k ==> x in m' && m'[x] == m[x]
  }

  /** The state with the access document of `username` replaced by `doc`. */
  function WithAccess(st: State, username: string, doc: AccessDoc): State
  {
    st.(access := st.access[username := doc])
  }

  /** The state with the list document of `id` replaced by `doc`. */
  function WithList(st: State, id: string, doc: ListDoc): State
  {
    st.(lists := st.lists[id := doc])
  }

  // ---------------------------------------------------------------- lookups

  /** `FindOne` on the access collection, decoded into an `accessRecord`. */
  function GetAccessByUsername(st: State, username: string): (r: Result<AccessRecord>)
    ensures r.Ok? <==> username in st.access
    ensures r.Err? ==> r.error == NoDocuments
    ensures r.Ok? ==> r.value.username == username && r.value.lists == st.access[username].lists
  {
    if username in st.access then Ok(AccessRecord(username, st.access[username].lists))
    else Err(NoDocuments)
  }

  /** `FindOne` on the list collection, decoded into a `list` (so without guests). */
  function GetListById(st: State, id: string): (r: Result<List>)
    ensures r.Ok? <==> id in st.lists
    ensures r.Err? ==> r.error == NoDocuments
    ensures r.Ok? ==> && r.value.id == id
                      && r.value.content == st.lists[id].content
                      && r.value.lastChanged == st.lists[id].lastChanged
  {
    if id in st.lists then Ok(List(id, st.lists[id].lastChanged, st.lists[id].content))
    else Err(NoDocuments)
  }

  // ---------------------------------------------------------- list writers

  /** `UpdateOne` setting `content` and `last_changed`, failing unless exactly one
      document was modified. MongoDB counts a document whose fields already hold
      the new values as matched but not modified, so that case fails too. */
  function UpdateList(st: State, id: string, content: string, now: Time): (r: Step)
    ensures r.status == Ok(()) <==>
              id in st.lists && (st.lists[id].content != content || st.lists[id].lastChanged != now)
    ensures r.status.Err? ==> r.status.error == NotModified && r.next == st
    ensures r.next.access == st.access
    ensures SameExcept(st.lists, r.next.lists, id)
    ensures id in r.next.lists <==> id in st.lists
    ensures id in st.lists ==> && r.next.lists[id].content == content
                               && r.next.lists[id].lastChanged == now
                               && r.next.lists[id].guests == st.lists[id].guests
  {
    if id !in st.lists then Step(Err(NotModified), st)
    else
      var doc := st.lists[id];
      var doc' := doc.(lastChanged := now, content := content);
      if doc' == doc then Step(Err(NotModified), st)
      else Step(Ok(()), WithList(st, id, doc'))
  }

  /** `InsertOne` of a `list` struct; the unique index on `id` rejects a duplicate. */
  function InsertListInDB(st: State, rec: List): (r: Step)
    ensures r.status == Ok(()) <==> rec.id !in st.lists
    ensures r.status.Err? ==> r.status.error == DuplicateKey && r.next == st
    ensures r.next.access == st.access
    ensures SameExcept(st.lists, r.next.lists, rec.id)
    ensures r.status == Ok(()) ==> && r.next.lists.Keys == st.lists.Keys + {rec.id}
                                   && r.next.lists[rec.id] == ListDoc(rec.lastChanged, rec.content, [])
  {
    if rec.id in st.lists then Step(Err(DuplicateKey), st)
    else Step(Ok(()), WithList(st, rec.id, ListDoc(rec.lastChanged, rec.content, [])))
  }

  /** `DeleteOne` by id, failing unless exactly one document was deleted. */
  function RemoveListFromDB(st: State, id: string): (r: Step)
    ensures r.status == Ok(()) <==> id in st.lists
    ensures r.status.Err? ==> r.status.error == NotDeleted && r.next == st
    ensures id !in r.next.lists
    ensures r.next.lists.Keys == st.lists.Keys - {id}
    ensures SameExcept(st.lists, r.next.lists, id)
    ensures r.next.access == st.access
  {
    if id in st.lists then Step(Ok(()), st.(lists := st.lists - {id}))
    else Step(Err(NotDeleted), st)
  }

  /** `FindOneAndUpdate` `$push`ing `username` onto a list's `guests`. */
  function AddToListGuests(st: State, username: string, id: string): (r: Step)
    ensures r.status == Ok(()) <==> id in st.lists
    ensures r.status.Err? ==> r.status.error == NoDocuments && r.next == st
    ensures r.next.access == st.access
    ensures SameExcept(st.lists, r.next.lists, id)
    ensures r.status == Ok(()) ==> && id in r.next.lists
                                   && r.next.lists[id].guests == st.lists[id].guests + [username]
                                   && r.next.lists[id].content == st.lists[id].content
                                   && r.next.lists[id].lastChanged == st.lists[id].lastChanged
  {
    if id !in st.lists then Step(Err(NoDocuments), st)
    else
      var doc := st.lists[id];
      Step(Ok(()), WithList(st, id, doc.(guests := doc.guests + [username])))
  }

  // -------------------------------------------------------- access writers

  /** `InsertOne` of an `accessRecord` struct; the unique index on `username`
      rejects a duplicate. The struct has no `owned` or `shared` field. */
  function InsertAccessRecord(st: State, rec: AccessRecord): (r: Step)
    ensures r.status == Ok(()) <==> rec.username !in st.access
    ensures r.status.Err? ==> r.status.error == DuplicateKey && r.next == st
    ensures r.next.lists == st.lists
    ensures SameExcept(st.access, r.next.access, rec.username)
    ensures r.status == Ok(()) ==> && r.next.access.Keys == st.access.Keys + {rec.username}
                                   && r.next.access[rec.username] == AccessDoc(rec.lists, [], [])
  {
    if rec.username in st.access then Step(Err(DuplicateKey), st)
    else Step(Ok(()), WithAccess(st, rec.username, AccessDoc(rec.lists, [], [])))
  }

  /** `UpdateOne` `$set`ting a whole `accessRecord`. The matched count is never
      inspected, so a username with no record reports success and changes nothing. */
  function UpdateAccessRecord(st: State, rec: AccessRecord): (r: Step)
    ensures r.status == Ok(())
    ensures rec.username !in st.access ==> r.next == st
    ensures r.next.lists == st.lists
    ensures r.next.access.Keys == st.access.Keys
    ensures SameExcept(st.access, r.next.access, rec.username)
    ensures rec.username in st.access ==>
              && r.next.access[rec.username].lists == rec.lists
              && r.next.access[rec.username].owned == st.access[rec.username].owned
              && r.next.access[rec.username].shared == st.access[rec.username].shared
  {
    if rec.username !in st.access then Step(Ok(()), st)
    else
      var doc := st.access[rec.username];
      Step(Ok(()), WithAccess(st, rec.username, doc.(lists := rec.lists)))
  }

  /** `FindOneAndUpdate` on the access document of `username`: fails when no
      document matches, otherwise applies `edit` to it. */
  function FindOneAndUpdateAccess(st: State, username: string, edit: AccessDoc -> AccessDoc): (r: Step)
    ensures r.status == Ok(()) <==> username in st.access
    ensures r.status.Err? ==> r.status.error == NoDocuments && r.next == st
    ensures r.next.lists == st.lists
    ensures r.next.access.Keys == st.access.Keys
    ensures SameExcept(st.access, r.next.access, username)
    ensures r.status == Ok(()) ==> r.next.access[username] == edit(st.access[username])
  {
    if username !in st.access then Step(Err(NoDocuments), st)
    else Step(Ok(()), WithAccess(st, username, edit(st.access[username])))
  }

  /** `$push` of `link` onto the `owned` array of `username`. */
  function AddToAccessListsOwned(st: State, username: string, link: ListLink): (r: Step)
    ensures r.status == Ok(()) <==> username in st.access
    ensures r.status.Err? ==> r.status.error == NoDocuments && r.next == st
    ensures r.next.lists == st.lists
    ensures r.next.access.Keys == st.access.Keys
    ensures SameExcept(st.access, r.next.access, username)
    ensures r.status == Ok(()) ==>
              && r.next.access[username].owned == st.access[username].owned + [link]
              && r.next.access[username].lists == st.access[username].lists
              && r.next.access[username].shared == st.access[username].shared
  {
    FindOneAndUpdateAccess(st, username, (doc: AccessDoc) => doc.(owned := doc.owned + [link]))
  }

  /** `$push` of `link` onto the `shared` array of `username`. */
  function AddToAccessListsShared(st: State, username: string, link: ListLink): (r: Step)
    ensures r.status == Ok(()) <==> username in st.access
    ensures r.status.Err? ==> r.status.error == NoDocuments && r.next == st
    ensures r.next.lists == st.lists
    ensures r.next.access.Keys == st.access.Keys
    ensures SameExcept(st.access, r.next.access, username)
    ensures r.status == Ok(()) ==>
              && r.next.access[username].shared == st.access[username].shared + [link]
              && r.next.access[username].lists == st.access[username].lists
              && r.next.access[username].owned == st.access[username].owned
  {
    FindOneAndUpdateAccess(st, username, (doc: AccessDoc) => doc.(shared := doc.shared + [link]))
  }

  /** `$pull` with condition `{id: id}`: drops every link whose id is `id`,
      whatever its display name, and keeps the others in order. */
  function Pull(links: seq<ListLink>, id: string): (kept: seq<ListLink>)
    ensures forall l :: l in kept <==> l in links && l.id != id
    ensures |kept| <= |links|
  {
    if |links| == 0 then []
    else if links[0].id == id then Pull(links[1..], id)
    else [links[0]] + Pull(links[1..], id)
  }

  /** `$pull` of every link with `id` from the `owned` array of `username`. */
  function RemoveFromAccessListsOwned(st: State, username: string, id: string): (r: Step)
    ensures r.status == Ok(()) <==> username in st.access
    ensures r.status.Err? ==> r.status.error == NoDocuments && r.next == st
    ensures r.next.lists == st.lists
    ensures r.next.access.Keys == st.access.Keys
    ensures SameExcept(st.access, r.next.access, username)
    ensures r.status == Ok(()) ==>
              && r.next.access[username].owned == Pull(st.access[username].owned, id)
              && r.next.access[username].lists == st.access[username].lists
              && r.next.access[username].shared == st.access[username].shared
  {
    FindOneAndUpdateAccess(st, username, (doc: AccessDoc) => doc.(owned := Pull(doc.owned, id)))
  }

  /** `$pull` of every link with `id` from the `shared` array of `username`. */
  function RemoveFromAccessListsShared(st: State, username: string, id: string): (r: Step)
    ensures r.status == Ok(()) <==> username in st.access
    ensures r.status.Err? ==> r.status.error == NoDocuments && r.next == st
    ensures r.next.lists == st.lists
    ensures r.next.access.Keys == st.access.Keys
    ensures SameExcept(st.access, r.next.access, username)
    ensures r.status == Ok(()) ==>
              && r.next.access[username].shared == Pull(st.access[username].shared, id)
              && r.next.access[username].lists == st.access[username].lists
              && r.next.access[username].owned == st.access[username].owned
  {
    FindOneAndUpdateAccess(st, username, (doc: AccessDoc) => doc.(shared := Pull(doc.shared, id)))
  }

  // ----------------------------------------------------------------- lemmas

  /** Pulling distributes over concatenation: the survivors of `a + b` are the
      survivors of `a` followed by those of `b`, so the relative order of the
      links that stay is the order they had. */
  lemma {:induction false} PullDistributes(a: seq<ListLink>, b: seq<ListLink>, id: string)
    ensures Pull(a + b, id) == Pull(a, id) + Pull(b, id)
  {
    if |a| == 0 {
      assert a + b == b;
    } else {
      assert (a + b)[1..] == a[1..] + b;
      PullDistributes(a[1..], b, id);
    }
  }

  /** Every link that survives a pull survives as often as it occurred. */
  lemma {:induction false} PullKeepsMultiplicity(links: seq<ListLink>, id: string, l: ListLink)
    requires l.id != id
    ensures multiset(Pull(links, id))[l] == multiset(links)[l]
  {
    if |links| > 0 {
      assert links == [links[0]] + links[1..];
      PullKeepsMultiplicity(links[1..], id, l);
    }
  }

  /** A sequence with no link carrying `id` passes through a pull untouched. */
  lemma {:induction false} PullWithoutMatchIsIdentity(links: seq<ListLink>, id: string)
    requires forall i :: 0 <= i < |links| ==> links[i].id != id
    ensures Pull(links, id) == links
  {
    if |links| > 0 {
      PullWithoutMatchIsIdentity(links[1..], id);
    }
  }

  lemma {:induction false} PullIdempotent(links: seq<ListLink>, id: string)
    ensures Pull(Pull(links, id), id) == Pull(links, id)
  {
    var kept := Pull(links, id);
    forall i | 0 <= i < |kept| ensures kept[i].id != id {
      assert kept[i] in kept;
    }
    PullWithoutMatchIsIdentity(kept, id);
  }

  /** Pulling the same id from `owned` twice is the same as pulling it once;
      without a record both attempts fail alike and change nothing. */
  lemma RemoveOwnedIdempotent(st: State, username: string, id: string)
    ensures var once := RemoveFromAccessListsOwned(st, username, id);
            RemoveFromAccessListsOwned(once.next, username, id) == once
  {
    if username in st.access {
      PullIdempotent(st.access[username].owned, id);
    }
  }

  /** Pulling the same id from `shared` twice is the same as pulling it once;
      without a record both attempts fail alike and change nothing. */
  lemma RemoveSharedIdempotent(st: State, username: string, id: string)
    ensures var once := RemoveFromAccessListsShared(st, username, id);
            RemoveFromAccessListsShared(once.next, username, id) == once
  {
    if username in st.access {
      PullIdempotent(st.access[username].shared, id);
    }
  }

  /** A list inserted under a fresh id reads back as the record inserted. */
  lemma InsertThenGetList(st: State, rec: List)
    requires rec.id !in st.lists
    ensures GetListById(InsertListInDB(st, rec).next, rec.id) == Ok(rec)
  {
  }

  /** After a successful update the list reads back with the new content and stamp. */
  lemma UpdateThenGetList(st: State, id: string, content: string, now: Time)
    requires UpdateList(st, id, content, now).status == Ok(())
    ensures GetListById(UpdateList(st, id, content, now).next, id) == Ok(List(id, now, content))
  {
  }

  /** After a successful delete the list is gone for every later lookup. */
  lemma RemoveThenGetList(st: State, id: string)
    ensures GetListById(RemoveListFromDB(st, id).next, id) == Err(NoDocuments)
  {
  }

  /** An access record inserted under a fresh username reads back as inserted. */
  lemma InsertThenGetAccess(st: State, rec: AccessRecord)
    requires rec.username !in st.access
    ensures GetAccessByUsername(InsertAccessRecord(st, rec).next, rec.username) == Ok(rec)
  {
  }

  /** The guests array is invisible to a list lookup: sharing changes nothing
      that a lookup of any list returns. */
  lemma GuestsInvisibleToLookup(st: State, username: string, id: string, other: string)
    ensures GetListById(AddToListGuests(st, username, id).next, other) == GetListById(st, other)
  {
  }
}
