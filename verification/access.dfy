/** The access check every guarded handler runs before it touches a list. */
module Access {
  import opened Records
  import opened Db

  /** Linear search, stopping at the first link whose id is `id`. */
  function ContainsId(links: seq<ListLink>, id: string): (found: bool)
    ensures found <==> exists i :: 0 <= i < |links| && links[i].id == id
  {
    if |links| == 0 then false
    else if links[0].id == id then true
    else
      var found := ContainsId(links[1..], id);
      assert found ==> exists i :: 1 <= i < |links| && links[i].id == id by {
        if found {
          var j :| 0 <= j < |links[1..]| && links[1..][j].id == id;
          assert links[j + 1].id == id;
        }
      }
      found
  }

  /** The ids a user's links name, without order or repetition. */
  function IdSet(links: seq<ListLink>): set<string>
  {
    set i | 0 <= i < |links| :: links[i].id
  }

  /** `hasAccessToList`: looks up the access record of `username` and searches its
      `lists` for `id`. A failed lookup yields the error and never a grant; the
      `owned` and `shared` arrays play no part. */
  function HasAccessToList(st: State, username: string, id: string): (r: Result<bool>)
    ensures r.Err? <==> username !in st.access
    ensures r.Err? ==> r.error == NoDocuments
    ensures r == Ok(true) <==>
              username in st.access && id in IdSet(st.access[username].lists)
    ensures username in st.access && st.access[username].lists == [] ==> r == Ok(false)
  {
    match GetAccessByUsername(st, username)
    case Err(e) => Err(e)
    case Ok(rec) => Ok(ContainsId(rec.lists, id))
  }

  // ----------------------------------------------------------------- lemmas

  /** The search answers the same for two link sequences naming the same ids,
      in any order and with any repetition. */
  lemma AccessDependsOnlyOnIdSet(a: seq<ListLink>, b: seq<ListLink>, id: string)
    requires IdSet(a) == IdSet(b)
    ensures ContainsId(a, id) == ContainsId(b, id)
  {
    if ContainsId(a, id) {
      var i :| 0 <= i < |a| && a[i].id == id;
      assert id in IdSet(b);
    }
    if ContainsId(b, id) {
      var i :| 0 <= i < |b| && b[i].id == id;
      assert id in IdSet(a);
    }
  }

  /** Display names never matter: links with the same ids position by position
      give the same answer, whatever they are called. */
  lemma {:induction false} AccessIgnoresDisplayNames(a: seq<ListLink>, b: seq<ListLink>, id: string)
    requires |a| == |b|
    requires forall i :: 0 <= i < |a| ==> a[i].id == b[i].id
    ensures ContainsId(a, id) == ContainsId(b, id)
  {
    if |a| > 0 {
      AccessIgnoresDisplayNames(a[1..], b[1..], id);
    }
  }

  /** The answer for a user depends on nothing but whether they have a record
      and the `lists` array of that record. */
  lemma AccessReadsOnlyLists(st: State, st': State, username: string, id: string)
    requires username in st.access <==> username in st'.access
    requires username in st.access ==> st.access[username].lists == st'.access[username].lists
    ensures HasAccessToList(st, username, id) == HasAccessToList(st', username, id)
  {
  }

  /** Pushing a link onto `owned` or `shared`, or pulling one from them, changes
      no user's access to any list: the check reads only `lists`. */
  lemma OwnedAndSharedWritesGrantNothing(st: State, writer: string, link: ListLink,
                                         pulled: string, username: string, id: string)
    ensures HasAccessToList(AddToAccessListsOwned(st, writer, link).next, username, id)
            == HasAccessToList(st, username, id)
    ensures HasAccessToList(AddToAccessListsShared(st, writer, link).next, username, id)
            == HasAccessToList(st, username, id)
    ensures HasAccessToList(RemoveFromAccessListsOwned(st, writer, pulled).next, username, id)
            == HasAccessToList(st, username, id)
    ensures HasAccessToList(RemoveFromAccessListsShared(st, writer, pulled).next, username, id)
            == HasAccessToList(st, username, id)
  {
    AccessReadsOnlyLists(st, AddToAccessListsOwned(st, writer, link).next, username, id);
    AccessReadsOnlyLists(st, AddToAccessListsShared(st, writer, link).next, username, id);
    AccessReadsOnlyLists(st, RemoveFromAccessListsOwned(st, writer, pulled).next, username, id);
    AccessReadsOnlyLists(st, RemoveFromAccessListsShared(st, writer, pulled).next, username, id);
  }

  /** Writes to the list collection change no user's access to any list, not even
      deleting the list: a link to a deleted list still grants access. */
  lemma ListWritesGrantNothing(st: State, rec: List, listId: string, content: string, now: Time,
                               guest: string, username: string, id: string)
    ensures HasAccessToList(InsertListInDB(st, rec).next, username, id) == HasAccessToList(st, username, id)
    ensures HasAccessToList(UpdateList(st, listId, content, now).next, username, id)
            == HasAccessToList(st, username, id)
    ensures HasAccessToList(RemoveListFromDB(st, listId).next, username, id) == HasAccessToList(st, username, id)
    ensures HasAccessToList(AddToListGuests(st, guest, listId).next, username, id)
            == HasAccessToList(st, username, id)
  {
  }

  /** Rewriting a user's record with `UpdateAccessRecord` sets their access to
      exactly what the new `lists` names; without a record nothing is granted. */
  lemma UpdateAccessRecordSetsAccess(st: State, rec: AccessRecord, id: string)
    ensures rec.username in st.access ==>
              HasAccessToList(UpdateAccessRecord(st, rec).next, rec.username, id) == Ok(id in IdSet(rec.lists))
    ensures rec.username !in st.access ==>
              HasAccessToList(UpdateAccessRecord(st, rec).next, rec.username, id) == Err(NoDocuments)
  {
  }

  /** A freshly inserted record grants access to exactly the lists it names. */
  lemma InsertAccessRecordSetsAccess(st: State, rec: AccessRecord, id: string)
    requires rec.username !in st.access
    ensures HasAccessToList(InsertAccessRecord(st, rec).next, rec.username, id) == Ok(id in IdSet(rec.lists))
  {
  }
}
