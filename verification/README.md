# Shopping-list server: access control over lists, in Dafny

This project models the list access-control layer of a multi-user
shopping-list server written in Go.

The server stores two MongoDB collections:
- **lists**, keyed by `id`, hold each list's content and its `last_changed` stamp.
- **access records**, keyed by `username`, hold links to the lists a user may open.

Every request for one list runs the same gate. It looks up the caller's access
record and searches its `lists` links for the id. On a lookup error it answers
500, and when no link matches it answers "access denied". Only after that does
it touch the list.

The model has five modules:

- `Records` (`records.dfy`): the Go structs `list`, `listLink` and
  `accessRecord`, and the errors a store helper can report.
- `Db` (`db.dfy`): the two collections as maps, plus every helper of the
  database layer. Each helper is a pure function from a state to a status and
  the next state. The unique indexes on `id` and `username` are the map keys.
  The stored documents carry what the code writes, not only what the Go
  structs declare:
  - a list document has a `guests` array;
  - an access document has `lists`, `owned` and `shared` arrays.
  
  Lookups decode into the Go structs. So `guests`, `owned` and `shared` are
  written here but read back by nothing in this model.
- `Access` (`access.dfy`): `hasAccessToList`, a linear search over the
  record's `lists` links.
- `Handlers` (`handlers.dfy`): the get, update, create and delete handlers.
  Each returns three things:
  - the response it writes (status and body);
  - the store state it leaves;
  - the trace of store calls it made.
  
  "Never touches the store" is therefore an ordinary postcondition. Two store
  functions are outside this model: `createList` and `deleteList`. The
  handlers take them as function parameters, and nothing is assumed about
  their effects.
- `Env` (`env.dfy`): `readEnv`, which turns the `PORT` setting into a listen
  address. The setting's value is a parameter.

Points where the model follows the code closely:

- `updateList` fails unless MongoDB reports exactly one *modified* document.
  MongoDB does not count a document whose fields already hold the new values
  as modified. So the model's update fails on an absent id, and also when the
  content and the stamp both equal what is stored.
- "access denied" is written without setting a status. Go then sends it with
  the default 200. The model's `AccessDenied` response has status 200.
- `hasAccessToList` reads only `lists`. The push helpers write `owned` and
  `shared`, so none of them ever grants access. `OwnedAndSharedWritesGrantNothing`
  proves this. Only `insertAccessRecord` and `updateAccessRecord` change what
  the check answers.
- `HandleDeleteList` calls `deleteList` for any user the check grants. It
  makes no separate ownership test (src/logic/handlers.go:119-130).
- An update that modifies nothing, whether the id is missing or the write is a
  no-op, is reported by `updateList` as an error (src/logic/db.go:83-85). The
  update handler turns that error into a 500 (src/logic/handlers.go:75-79).

## Model

| member | source | states |
|---|---|---|
| `Db.GetAccessByUsername` | src/logic/db.go:52-63 | The lookup fails with "no documents" exactly when no record has the username. On success it yields that username and the stored `lists` links. |
| `Db.GetListById` | src/logic/db.go:65-76 | The lookup fails with "no documents" exactly when no list has the id. On success it yields the id, content and stamp of the stored list. |
| `Db.UpdateList` | src/logic/db.go:78-87 | Succeeds iff the list exists and the write changes its content or stamp. Afterwards that list holds the new content and stamp, and keeps its guests. Other lists and all access records are unchanged. On failure ("couldn't modify") the state is unchanged. |
| `Db.InsertListInDB` | src/logic/db.go:89-95 | Fails with a duplicate key, changing nothing, iff the id is taken. Otherwise it adds exactly that id, holding the record's stamp and content with no guests. Nothing else changes. |
| `Db.RemoveListFromDB` | src/logic/db.go:97-106 | Afterwards the id is absent and the other lists are untouched. Succeeds iff the list existed. If nothing was deleted it reports "no list was deleted" and the state is unchanged. |
| `Db.InsertAccessRecord` | src/logic/db.go:108-114 | Fails with a duplicate key, changing nothing, iff the username is taken. Otherwise it adds a record with the given `lists` and empty `owned` and `shared`. |
| `Db.UpdateAccessRecord` | src/logic/db.go:116-122 | Always reports success. With no record for the username the state is unchanged. Otherwise only that record's `lists` is replaced; `owned`, `shared`, other users and all lists stay as they were. |
| `Db.AddToAccessListsOwned` | src/logic/db.go:124-130 | Fails with "no documents", changing nothing, iff the user has no record. Otherwise it appends the link at the end of `owned` and leaves `lists`, `shared`, other users and all lists unchanged. |
| `Db.AddToListGuests` | src/logic/db.go:131-137 | Fails with "no documents", changing nothing, iff no list has the id. Otherwise it appends the username to that list's guests and keeps its content and stamp. Other lists and all access records are unchanged. |
| `Db.AddToAccessListsShared` | src/logic/db.go:139-145 | Fails with "no documents", changing nothing, iff the user has no record. Otherwise it appends the link at the end of `shared` and leaves `lists`, `owned`, other users and all lists unchanged. |
| `Db.Pull` | src/logic/db.go:147-160 | The `$pull {id}` condition. A link survives iff its id differs, whatever its display name. The result is never longer. |
| `Db.PullKeepsMultiplicity` | src/logic/db.go:147-160 | A link whose id differs from the pulled id occurs after the pull exactly as many times as before. |
| `Db.FindOneAndUpdateAccess` | src/logic/db.go:125-129 | The shared shape of the four push and pull helpers. It fails with "no documents", changing nothing, iff the user has no record. Otherwise it replaces only that user's document by the edited one, and all lists stay unchanged. |
| `Db.RemoveFromAccessListsOwned` | src/logic/db.go:147-153 | Fails with "no documents", changing nothing, iff the user has no record. Otherwise it pulls every link with the id from `owned` only. `lists`, `shared`, other users and all lists are unchanged. |
| `Db.RemoveFromAccessListsShared` | src/logic/db.go:154-160 | Fails with "no documents", changing nothing, iff the user has no record. Otherwise it pulls every link with the id from `shared` only. `lists`, `owned`, other users and all lists are unchanged. |
| `Db.PullDistributes` | src/logic/db.go:147-160 | Pulling from a concatenation equals concatenating the pulls. So the remaining links keep their original order. |
| `Db.PullWithoutMatchIsIdentity` | src/logic/db.go:147-160 | A link sequence with no link carrying the id is left exactly as it was. |
| `Db.PullIdempotent` | src/logic/db.go:147-160 | Pulling the same id twice gives the same links as pulling it once. |
| `Db.RemoveOwnedIdempotent` | src/logic/db.go:147-153 | For every state, repeating the removal from `owned` gives the same status and the same state. Without a record, both attempts fail and change nothing. |
| `Db.RemoveSharedIdempotent` | src/logic/db.go:154-160 | For every state, repeating the removal from `shared` gives the same status and the same state. Without a record, both attempts fail and change nothing. |
| `Db.InsertThenGetList` | src/logic/db.go:89-95 | A list inserted under a fresh id is found by its id and decodes to exactly the inserted record. |
| `Db.UpdateThenGetList` | src/logic/db.go:78-87 | After a successful update, the lookup returns the new content and stamp. |
| `Db.RemoveThenGetList` | src/logic/db.go:97-106 | After a delete, the lookup of that id fails with "no documents". |
| `Db.InsertThenGetAccess` | src/logic/db.go:108-114 | A record inserted under a fresh username is found and decodes to exactly the inserted record. |
| `Db.GuestsInvisibleToLookup` | src/logic/list.go:5-9 | Adding a guest changes nothing that a lookup of any list returns, because the decoded `list` struct has no guests field. |
| `Access.ContainsId` | src/logic/list.go:26-31 | The early-exit search finds the id iff some link in the sequence has that id. |
| `Access.HasAccessToList` | src/logic/list.go:21-32 | An error iff the user has no record, and then never a grant. It grants iff the record's `lists` names the id. A record with empty `lists` yields `(false, nil)`. |
| `Access.AccessDependsOnlyOnIdSet` | src/logic/list.go:26-31 | Two link sequences that name the same ids give the same answer, whatever their order or repetition. |
| `Access.AccessIgnoresDisplayNames` | src/logic/list.go:27 | Links that have the same ids position by position but different display names give the same answer. |
| `Access.AccessReadsOnlyLists` | src/logic/list.go:16-19 | The answer for a user depends only on whether their record exists and on its `lists` array. |
| `Access.OwnedAndSharedWritesGrantNothing` | src/logic/db.go:124-160 | Pushing to or pulling from `owned` or `shared` leaves every user's access to every list unchanged. |
| `Access.ListWritesGrantNothing` | src/logic/db.go:78-137 | Inserting, updating, deleting or sharing a list leaves every user's access unchanged. A link to a deleted list still grants. |
| `Access.UpdateAccessRecordSetsAccess` | src/logic/db.go:116-122 | After rewriting an existing record, the user has access exactly to the ids its new `lists` names. Without a record the check still fails. |
| `Access.InsertAccessRecordSetsAccess` | src/logic/db.go:108-114 | A freshly inserted record grants access to exactly the ids its `lists` names. |
| `Handlers.HandleGetList` | src/logic/handlers.go:17-43 | Never writes. A lookup error gives 500 after the access lookup alone. "access denied" is given iff the check denies, again after the access lookup alone. When access is granted, the calls are exactly the access lookup and then the list lookup. A missing list then gives 500. The list is returned, with status 200, iff access is granted and the list exists. Every non-200 response is the internal-error one. |
| `Handlers.HandleUpdateList` | src/logic/handlers.go:49-81 | Access records never change, and no list other than the id changes. The store changes only if access is granted and the body parsed. A refusal makes only the access lookup. "access denied" is given iff the check denies. Once access is granted: an unreadable body gives 500 and an invalid body gives 400, both without writing. A parsed body makes exactly the access lookup and then one content write, and leaves the state `updateList` leaves. A failed `updateList` gives 500. The empty 200 is given iff `updateList` succeeds, and then the list holds the new content and stamp. |
| `Handlers.HandleCreateList` | src/logic/handlers.go:91-114 | Makes no access lookup and never answers "access denied". An unreadable body gives 500 and an invalid body gives 400 (and only an invalid body does). Neither changes anything or calls anything. A parsed body calls `createList` exactly once, with the authenticated user as owner, and leaves the state it leaves. A `createList` error gives 500. The id is returned, with status 200, iff `createList` succeeded, and it is the id `createList` produced. |
| `Handlers.HandleDeleteList` | src/logic/handlers.go:116-138 | `deleteList` is called iff the check grants, whatever the user owns. "access denied" is given iff the check denies. A refusal leaves the state unchanged, makes only the access lookup, and answers with the check's error (500) or denial. When access is granted, the calls are exactly the access lookup and then one `deleteList`, and the state is the one `deleteList` leaves. A `deleteList` error gives 500. The empty 200 response is given iff the check grants and `deleteList` succeeds. |
| `Handlers.RefusedDeleteIgnoresDeleteList` | src/logic/handlers.go:119-128 | When the check does not grant, the handler's outcome is the same for every possible `deleteList`. |
| `Handlers.UndecodedCreateIgnoresCreateList` | src/logic/handlers.go:93-105 | When the body is unreadable or invalid, the create handler's outcome is the same for every possible `createList`. |
| `Handlers.CreateIgnoresAccessRecords` | src/logic/handlers.go:91-106 | Two stores that differ only in their access records give the same create response and calls, for any `createList` that answers both alike. |
| `Handlers.DeleteGateIgnoresOwnership` | src/logic/handlers.go:119-130 | Replacing the requester's `owned` links changes none of the store calls the delete handler makes. |
| `Handlers.UnauthorizedUpdateKeepsContent` | src/logic/handlers.go:52-61 | An update by a user the check does not grant leaves the whole store unchanged, whatever the body. |
| `Handlers.OwnedLinkAloneIsDenied` | src/logic/handlers.go:20-29 | A user whose link sits only in `owned`, where the push helper puts it, is told "access denied" for that list. |
| `Handlers.GuestUpdateScenario` | src/logic/handlers.go:49-81 | A user whose `lists` names a list updates it, and their next get returns the new content. A user with no record gets 500 and changes nothing. |
| `Env.ReadEnv` | src/main.go:23-32 | The address is never empty and starts with ':'. An empty setting gives ":8080", and a setting starting with ':' is kept. Any other setting gets ':' prepended. A non-empty setting is always a suffix of the address. |
| `Env.ReadEnvIdempotent` | src/main.go:23-32 | Feeding the address back in as the setting gives the same address. |
| `Env.ReadEnvPortNumber` | src/main.go:24-31 | The text after the ':' is "8080" for an empty setting, or the setting without its one leading ':'. A setting of ":" gives ":" with no port number. |

## Left out

- Connecting to MongoDB, pinging it, timeouts and index creation (`InitDB`, src/logic/db.go:17-50). Only their effect is kept: the unique indexes become the maps' keys.
- Driver transport failures and document decode failures. The model reports only the errors its state determines: no match, duplicate key, not modified, not deleted.
- `time.Now()` in `updateList`. The stamp is a parameter, at the precision MongoDB stores.
- JWT handling, cookies, middleware and `getUsername` (src/logic/handlers.go:11-15), all of src/auth/auth.go, and the router setup in src/main.go:34-184. The username is a trusted input.
- Credential storage and password hashing (src/credentials/cred.go) and the JSON error wrapper (src/utils/utils.go). These are hashing and database calls with no logic of their own.
- Reading the request body and decoding JSON. Their outcome is the `Payload` value: unreadable, malformed, or parsed.
- Handlers.HandleGetList: the model does not represent a failure of `json.Marshal` on the list. The model's stamp is an integer that always encodes.
- `createList`, `deleteList`, `HandleShareList`, `HandleGetSharedLists` and `HandleGetOwnedLists` are not part of this model. The model claims nothing about their effects. As a result, it does not cover properties that depend on them: that the owner has access after creation, that a guest has access after sharing, and that nobody has access after a delete.
- Concurrent requests, including the lost-update race of read-modify-write through `updateAccessRecord`. The model is one sequential state.
