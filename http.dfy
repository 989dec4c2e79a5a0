/**
 * The values both variants of the service exchange with their clients:
 * the user record, request-body fields, and the status/body pair of a
 * response. Wall-clock timestamps are opaque strings supplied by the caller.
 */
module Http {

  datatype Option<+T> = None | Some(value: T)

  /**
   * JavaScript truthiness of a request-body field that holds a string or
   * is missing: `!field` is true exactly for a missing key (or `null`)
   * and for the empty string.
   */
  predicate Falsy(field: Option<string>) {
    field.None? || field.value == ""
  }

  /** The user resource: `{ id, name, email, created_at }`. */
  datatype User = User(id: nat, name: string, email: string, createdAt: string)

  /** The JSON bodies the handlers send. */
  datatype Body =
    | ErrorBody(error: string)        // `{ error: ... }`
    | UserBody(user: User)            // one user object
    | UserList(users: seq<User>)      // an array of user objects
    | HealthBody(status: string, timestamp: string)
    | NoBody                          // `res.json(undefined)`

  datatype Response = Response(status: nat, body: Body)

  const FieldsRequired := "Name and email are required"
  const NotInitialized := "Database not initialized"
  const InternalError := "Internal server error"

  /** The 400 reply both variants give to a create without name or email. */
  const BadRequest := Response(400, ErrorBody(FieldsRequired))

  /** The field values a create stores: both are present and non-empty. */
  function ValidFields(name: Option<string>, email: Option<string>): (r: Option<(string, string)>)
    ensures r.Some? <==> !Falsy(name) && !Falsy(email)
    ensures r.Some? ==> name == Some(r.value.0) && email == Some(r.value.1)
    ensures r.Some? ==> r.value.0 != "" && r.value.1 != ""
  {
    if Falsy(name) || Falsy(email) then None else Some((name.value, email.value))
  }
}
