/** Values shared by the models and the request handlers of the diagram-sharing service. */
module Common {

  datatype Option<+T> = None | Some(value: T)

  datatype Result<+T, +E> = Ok(value: T) | Err(error: E)

  /** The one database failure the models can provoke: a UNIQUE constraint (named `table.column`). */
  datatype DbError = UniqueViolation(column: string)

  /** A JSON value in a request body, as far as JavaScript truthiness tells values apart.
      `Composite` stands for any object or array, whose members are not modelled. */
  datatype JsValue = Undefined | Null | Bool(b: bool) | Number(n: real) | Str(s: string) | Composite

  /** JavaScript truthiness (`!v` is its negation); NaN is not modelled. */
  predicate Truthy(v: JsValue)
  {
    match v
    case Undefined => false
    case Null => false
    case Bool(b) => b
    case Number(n) => n != 0.0
    case Str(s) => s != ""
    case Composite => true
  }

  /** A string field of a request body or profile: missing, or present. The handlers'
      `!field` test fails exactly for a missing or empty field. */
  predicate Provided(field: Option<string>)
  {
    field.Some? && field.value != ""
  }

  /** What `req.session.user` holds: login stores three fields, the current-user
      refresh stores five. A destroyed session, or one without a user, is `None`. */
  datatype SessionUser =
    | Basic(id: nat, username: string, email: string)
    | Refreshed(id: nat, username: string, email: string, profilePicture: Option<string>, authType: string)

  type Session = Option<SessionUser>
}
