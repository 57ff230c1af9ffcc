/** The small result types every other module uses. */
module Wrappers {

  datatype Option<+T> = None | Some(value: T)

  /** What a call that may raise gives back. */
  datatype Result<+V, +E> = Returned(value: V) | Raises(error: E)

  /** The outcome of one database transaction: it commits a new database and returns a value,
      or it raises and leaves the database as it was. */
  datatype Tx<+D, +V, +E> = Commit(database: D, value: V) | Abort(error: E)
}
