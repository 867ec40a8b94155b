/// Small value types shared by every module of the model.
module Wrappers {

  /** A value that may be absent: JavaScript's `null`/`undefined` for a column or field. */
  datatype Option<+T> = None | Some(value: T) {

    /** The `??` operator: the value, or `default` when it is absent. */
    function GetOr(default: T): T
    {
      match this
      case Some(v) => v
      case None => default
    }
  }

  /** The `{ data, error }` pair a hosted-database query resolves to. */
  datatype QueryResult<+T> = QueryError(message: string) | QueryOk(data: T)
}
