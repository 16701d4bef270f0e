/** The records of the list service as its Go structs declare them, and the
    error and result shapes every store helper returns.
 */
module Records {

  /** A `last_changed` stamp. The caller supplies it in place of reading the clock. */
  type Time = int

  /** A denormalised reference to a list: its id and the name shown to a user. */
  datatype ListLink = ListLink(id: string, displayName: string)

  /** The `list` struct: what a list lookup decodes and a list insert writes. */
  datatype List = List(id: string, lastChanged: Time, content: string)

  /** The `accessRecord` struct: a user and the links of the lists they may open. */
  datatype AccessRecord = AccessRecord(username: string, lists: seq<ListLink>)

  /** The failures the store helpers report, one per way a helper can fail. */
  datatype DbError =
    | NoDocuments   // a find matched nothing
    | DuplicateKey  // an insert collided with a unique index
    | NotModified   // an update changed no document ("couldn't modify selected list")
    | NotDeleted    // a delete removed no document ("no list was deleted")

  /** A value, or the error that stopped a lookup from producing it. */
  datatype Result<+T> = Ok(value: T) | Err(error: DbError)
}
