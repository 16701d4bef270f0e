/** The HTTP handlers for one list, as decisions over the store. The caller
    has already authenticated the username and decoded the request body. A
    handler returns the response it writes, the store state it leaves, and the
    store calls it made, in order. `createList` and `deleteList` are not part of
    this model. The handlers receive them as parameters, and nothing is assumed
    about what they do.
 */
module Handlers {
  import opened Records
  import opened Db
  import opened Access

  const StatusOK := 200
  const StatusBadRequest := 400
  const StatusInternalServerError := 500

  /** What a handler writes as the response body. */
  datatype Body =
    | ErrorMessage(message: string)  // `{"error": message}`
    | ListJson(list: List)           // the decoded `list` struct
    | IdJson(id: string)             // `{"id": id}`
    | NoBody

  datatype Response = Response(status: int, body: Body)

  const InternalServerError := Response(StatusInternalServerError, ErrorMessage("internal server error"))
  /** Written without setting a header, so it goes out with the default status 200. */
  const AccessDenied := Response(StatusOK, ErrorMessage("access denied"))
  const InvalidRequestBody := Response(StatusBadRequest, ErrorMessage("invalid request body"))
  const EmptyOk := Response(StatusOK, NoBody)

  /** A request body after it has been read and decoded as JSON. */
  datatype Payload<+T> = Unreadable | Malformed | Parsed(value: T)

  /** The body `HandleCreateList` expects. */
  datatype NamedList = NamedList(name: string, content: string)

  /** A store call made by a handler. */
  datatype Call =
    | FindAccess(username: string)
    | FindList(id: string)
    | WriteContent(id: string, content: string)
    | CreateList(owner: string, name: string, content: string)
    | DeleteList(username: string, id: string)

  datatype Handled = Handled(response: Response, next: State, calls: seq<Call>)

  /** `createList(owner, name, content)`: the new list's id or an error, and the next state. */
  type CreateListOp = (State, string, string, string) -> (Result<string>, State)

  /** `deleteList(username, id)`: nil or an error, and the next state. */
  type DeleteListOp = (State, string, string) -> (Result<()>, State)

  /** The response of a guarded handler whose access check did not grant. */
  function Refusal(access: Result<bool>): Response
  {
    if access.Err? then InternalServerError else AccessDenied
  }

  /** `HandleGetList`: the list, once the access check grants and the lookup finds it. */
  function HandleGetList(st: State, username: string, id: string): (h: Handled)
    ensures h.next == st
    ensures HasAccessToList(st, username, id).Err? ==>
              h.response == InternalServerError && h.calls == [FindAccess(username)]
    ensures h.response == AccessDenied <==> HasAccessToList(st, username, id) == Ok(false)
    ensures HasAccessToList(st, username, id) == Ok(false) ==> h.calls == [FindAccess(username)]
    ensures HasAccessToList(st, username, id) == Ok(true) ==> h.calls == [FindAccess(username), FindList(id)]
    ensures HasAccessToList(st, username, id) == Ok(true) && id !in st.lists ==> h.response == InternalServerError
    ensures h.response.body.ListJson? <==> HasAccessToList(st, username, id) == Ok(true) && id in st.lists
    ensures h.response.body.ListJson? ==>
              h.response.status == StatusOK && GetListById(st, id) == Ok(h.response.body.list)
    ensures h.response.status != StatusOK <==> h.response == InternalServerError
  {
    var access := HasAccessToList(st, username, id);
    if access != Ok(true) then Handled(Refusal(access), st, [FindAccess(username)])
    else
      var calls := [FindAccess(username), FindList(id)];
      match GetListById(st, id)
      case Err(_) => Handled(InternalServerError, st, calls)
      case Ok(rec) => Handled(Response(StatusOK, ListJson(rec)), st, calls)
  }

  /** `HandleUpdateList`: checks access, then reads the body, then writes the content. */
  function HandleUpdateList(st: State, username: string, id: string, body: Payload<string>, now: Time): (h: Handled)
    ensures h.next.access == st.access
    ensures SameExcept(st.lists, h.next.lists, id)
    ensures h.next != st ==> HasAccessToList(st, username, id) == Ok(true) && body.Parsed?
    ensures HasAccessToList(st, username, id) != Ok(true) ==>
              h.response == Refusal(HasAccessToList(st, username, id)) && h.calls == [FindAccess(username)]
    ensures h.response == AccessDenied <==> HasAccessToList(st, username, id) == Ok(false)
    ensures h.response == InvalidRequestBody <==> HasAccessToList(st, username, id) == Ok(true) && body.Malformed?
    ensures HasAccessToList(st, username, id) == Ok(true) && !body.Parsed? ==>
              h.next == st && h.calls == [FindAccess(username)]
    ensures HasAccessToList(st, username, id) == Ok(true) && body.Unreadable? ==> h.response == InternalServerError
    ensures HasAccessToList(st, username, id) == Ok(true) && body.Parsed? ==>
              && h.calls == [FindAccess(username), WriteContent(id, body.value)]
              && h.next == UpdateList(st, id, body.value, now).next
              && (UpdateList(st, id, body.value, now).status.Err? ==> h.response == InternalServerError)
    ensures h.response == EmptyOk <==>
              && HasAccessToList(st, username, id) == Ok(true) && body.Parsed? && id in st.lists
              && (st.lists[id].content != body.value || st.lists[id].lastChanged != now)
    ensures h.response == EmptyOk ==>
              id in h.next.lists && h.next.lists[id].content == body.value && h.next.lists[id].lastChanged == now
  {
    var access := HasAccessToList(st, username, id);
    if access != Ok(true) then Handled(Refusal(access), st, [FindAccess(username)])
    else
      match body
      case Unreadable => Handled(InternalServerError, st, [FindAccess(username)])
      case Malformed => Handled(InvalidRequestBody, st, [FindAccess(username)])
      case Parsed(content) =>
        var step := UpdateList(st, id, content, now);
        var response := if step.status.Ok? then EmptyOk else InternalServerError;
        Handled(response, step.next, [FindAccess(username), WriteContent(id, content)])
  }

  /** `HandleCreateList`: no access check; the authenticated user becomes the owner. */
  function HandleCreateList(st: State, username: string, body: Payload<NamedList>,
                            createList: CreateListOp): (h: Handled)
    ensures forall i :: 0 <= i < |h.calls| ==> !h.calls[i].FindAccess?
    ensures h.response != AccessDenied
    ensures !body.Parsed? ==> h.next == st && h.calls == []
    ensures body.Unreadable? ==> h.response == InternalServerError
    ensures h.response == InvalidRequestBody <==> body.Malformed?
    ensures body.Parsed? ==>
              && h.calls == [CreateList(username, body.value.name, body.value.content)]
              && h.next == createList(st, username, body.value.name, body.value.content).1
    ensures body.Parsed? && createList(st, username, body.value.name, body.value.content).0.Err? ==>
              h.response == InternalServerError
    ensures h.response.body.IdJson? <==>
              body.Parsed? && createList(st, username, body.value.name, body.value.content).0.Ok?
    ensures h.response.body.IdJson? ==>
              && h.response.status == StatusOK
              && createList(st, username, body.value.name, body.value.content).0 == Ok(h.response.body.id)
  {
    match body
    case Unreadable => Handled(InternalServerError, st, [])
    case Malformed => Handled(InvalidRequestBody, st, [])
    case Parsed(req) =>
      var (created, st') := createList(st, username, req.name, req.content);
      var response := if created.Ok? then Response(StatusOK, IdJson(created.value)) else InternalServerError;
      Handled(response, st', [CreateList(username, req.name, req.content)])
  }

  /** `HandleDeleteList`: gates on any access, owner or not, then deletes. */
  function HandleDeleteList(st: State, username: string, id: string, deleteList: DeleteListOp): (h: Handled)
    ensures DeleteList(username, id) in h.calls <==> HasAccessToList(st, username, id) == Ok(true)
    ensures h.response == AccessDenied <==> HasAccessToList(st, username, id) == Ok(false)
    ensures HasAccessToList(st, username, id) != Ok(true) ==>
              && h.next == st
              && h.calls == [FindAccess(username)]
              && h.response == Refusal(HasAccessToList(st, username, id))
    ensures HasAccessToList(st, username, id) == Ok(true) ==>
              && h.calls == [FindAccess(username), DeleteList(username, id)]
              && h.next == deleteList(st, username, id).1
              && (deleteList(st, username, id).0.Err? ==> h.response == InternalServerError)
    ensures h.response == EmptyOk <==>
              HasAccessToList(st, username, id) == Ok(true) && deleteList(st, username, id).0 == Ok(())
  {
    var access := HasAccessToList(st, username, id);
    if access != Ok(true) then Handled(Refusal(access), st, [FindAccess(username)])
    else
      var (status, st') := deleteList(st, username, id);
      var response := if status == Ok(()) then EmptyOk else InternalServerError;
      Handled(response, st', [FindAccess(username), DeleteList(username, id)])
  }

  // ----------------------------------------------------------------- lemmas

  /** A refused delete does not depend on `deleteList` at all: it is never called. */
  lemma RefusedDeleteIgnoresDeleteList(st: State, username: string, id: string,
                                       d1: DeleteListOp, d2: DeleteListOp)
    requires HasAccessToList(st, username, id) != Ok(true)
    ensures HandleDeleteList(st, username, id, d1) == HandleDeleteList(st, username, id, d2)
  {
  }

  /** A create whose body was not decoded does not depend on `createList` at
      all: it is never called. */
  lemma UndecodedCreateIgnoresCreateList(st: State, username: string, body: Payload<NamedList>,
                                         c1: CreateListOp, c2: CreateListOp)
    requires !body.Parsed?
    ensures HandleCreateList(st, username, body, c1) == HandleCreateList(st, username, body, c2)
  {
  }

  /** The caller's access record plays no part in a create: two stores that
      differ only in their access records give the same outcome for any
      `createList` that itself ignores access records. */
  lemma CreateIgnoresAccessRecords(st: State, st': State, username: string, body: Payload<NamedList>,
                                   createList: CreateListOp)
    requires st.lists == st'.lists
    requires body.Parsed? ==>
               createList(st, username, body.value.name, body.value.content)
               == createList(st', username, body.value.name, body.value.content)
    ensures HandleCreateList(st, username, body, createList).response
            == HandleCreateList(st', username, body, createList).response
    ensures HandleCreateList(st, username, body, createList).calls
            == HandleCreateList(st', username, body, createList).calls
  {
  }

  /** Which lists a user owns plays no part in the delete gate: replacing the
      `owned` array of the requester leaves every outcome as it was. */
  lemma DeleteGateIgnoresOwnership(st: State, username: string, id: string,
                                   owned: seq<ListLink>, deleteList: DeleteListOp)
    requires username in st.access
    ensures var st' := WithAccess(st, username, st.access[username].(owned := owned));
            HandleDeleteList(st', username, id, deleteList).calls == HandleDeleteList(st, username, id, deleteList).calls
  {
    var st' := WithAccess(st, username, st.access[username].(owned := owned));
    AccessReadsOnlyLists(st, st', username, id);
  }

  /** An update by a user the check does not grant leaves every list's content
      as it was, whatever the body. */
  lemma UnauthorizedUpdateKeepsContent(st: State, username: string, id: string,
                                       body: Payload<string>, now: Time)
    requires HasAccessToList(st, username, id) != Ok(true)
    ensures HandleUpdateList(st, username, id, body, now).next == st
  {
  }

  /** A user whose link to a list sits only in `owned`, which is where a push
      after creation puts it, is refused by `HandleGetList`. */
  lemma OwnedLinkAloneIsDenied(owner: string, id: string, name: string, doc: ListDoc)
    ensures var st := State(map[id := doc], map[owner := AccessDoc([], [ListLink(id, name)], [])]);
            HandleGetList(st, owner, id).response == AccessDenied
  {
  }

  /** A guest whose `lists` names the list updates it, and the next lookup sees
      the new content; a user without a record gets a 500 and changes nothing. */
  lemma GuestUpdateScenario()
    ensures var st := State(map["X" := ListDoc(0, "milk", ["bob"])],
                            map["alice" := AccessDoc([], [ListLink("X", "Groceries")], []),
                                "bob" := AccessDoc([ListLink("X", "Groceries")], [], [])]);
            var h := HandleUpdateList(st, "bob", "X", Parsed("milk,eggs"), 1);
            && h.response == EmptyOk
            && HandleGetList(h.next, "bob", "X").response == Response(StatusOK, ListJson(List("X", 1, "milk,eggs")))
            && HandleUpdateList(st, "carol", "X", Parsed("x"), 1) == Handled(InternalServerError, st, [FindAccess("carol")])
  {
    var st := State(map["X" := ListDoc(0, "milk", ["bob"])],
                    map["alice" := AccessDoc([], [ListLink("X", "Groceries")], []),
                        "bob" := AccessDoc([ListLink("X", "Groceries")], [], [])]);
    assert HasAccessToList(st, "bob", "X") == Ok(true) by {
      assert st.access["bob"].lists[0].id == "X";
    }
    var h := HandleUpdateList(st, "bob", "X", Parsed("milk,eggs"), 1);
    assert HasAccessToList(h.next, "bob", "X") == Ok(true) by {
      assert h.next.access == st.access;
      assert h.next.access["bob"].lists[0].id == "X";
    }
  }
}
