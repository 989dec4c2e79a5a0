/**
 * The database-backed variant of the service, reduced to its decisions.
 * The module-level `pool` is either unset (before, or without, startup) or
 * ready. The database is an oracle from the query a handler issues to the
 * outcome its promise settles with: the returned rows or a thrown error.
 * A handler's result is the query it issued, if any, and the response.
 */
module DbApp {
  import opened Http

  /** The module-level `pool`: `undefined` until startup assigns it. */
  datatype Pool = Unset | Ready

  /** The two statements the handlers send; their SQL text is the store's. */
  datatype Query =
    | SelectNewestFirst                        // all users, newest first
    | InsertUser(name: string, email: string)  // insert, returning the row

  datatype QueryOutcome = Rows(rows: seq<User>) | Failed(detail: string)

  /** What the database answers to each query. */
  type Store = Query -> QueryOutcome

  datatype Exchange = Exchange(issued: Option<Query>, response: Response)

  datatype Request =
    | HealthCheck
    | ListRequest
    | PostRequest(name: Option<string>, email: Option<string>)

  const Uninitialized := Response(500, ErrorBody(NotInitialized))
  const ServerError := Response(500, ErrorBody(InternalError))

  /** GET /health: always 200 "healthy" with the given timestamp. */
  function Health(now: string): (r: Response)
    ensures r.status == 200 && r.body.HealthBody?
    ensures r.body.status == "healthy" && r.body.timestamp == now
  {
    Response(200, HealthBody("healthy", now))
  }

  /**
   * GET /users: without a pool, 500 "Database not initialized" and no
   * query; otherwise the rows exactly as the store returns them, or the
   * fixed 500 body when the query fails.
   */
  function GetUsers(pool: Pool, store: Store): (x: Exchange)
    ensures x.issued.None? <==> pool.Unset?
    ensures pool.Unset? ==> x.response == Uninitialized
    ensures pool.Ready? ==> x.issued == Some(SelectNewestFirst)
    ensures pool.Ready? && store(SelectNewestFirst).Rows? ==>
      x.response == Response(200, UserList(store(SelectNewestFirst).rows))
    ensures pool.Ready? && store(SelectNewestFirst).Failed? ==> x.response == ServerError
  {
    if pool.Unset? then
      Exchange(None, Uninitialized)
    else
      match store(SelectNewestFirst)
      case Rows(rows) => Exchange(Some(SelectNewestFirst), Response(200, UserList(rows)))
      case Failed(_) => Exchange(Some(SelectNewestFirst), ServerError)
  }

  /**
   * The body sent after a successful insert: `result.rows[0]`, which is
   * `undefined` (no body) when the store returned no row.
   */
  function FirstRow(rows: seq<User>): (b: Body)
    ensures b.UserBody? <==> |rows| > 0
    ensures b.UserBody? ==> b.user == rows[0]
    ensures b.UserBody? || b == NoBody
  {
    if |rows| > 0 then UserBody(rows[0]) else NoBody
  }

  /**
   * POST /users: the fields are validated first (400 even without a pool);
   * then a missing pool gives 500 "Database not initialized"; then the
   * insert is issued with exactly the submitted name and email, and its
   * first returned row comes back with 201, or the fixed 500 body.
   */
  function PostUsers(name: Option<string>, email: Option<string>, pool: Pool, store: Store): (x: Exchange)
    ensures Falsy(name) || Falsy(email) ==> x == Exchange(None, BadRequest)
    ensures !Falsy(name) && !Falsy(email) && pool.Unset? ==> x == Exchange(None, Uninitialized)
    ensures x.issued.Some? <==> !Falsy(name) && !Falsy(email) && pool.Ready?
    ensures x.issued.Some? ==> x.issued.value == InsertUser(name.value, email.value)
    ensures x.issued.Some? && store(x.issued.value).Rows? ==>
      x.response == Response(201, FirstRow(store(x.issued.value).rows))
    ensures x.issued.Some? && store(x.issued.value).Failed? ==> x.response == ServerError
  {
    match ValidFields(name, email)
    case None => Exchange(None, BadRequest)
    case Some((n, e)) =>
      if pool.Unset? then
        Exchange(None, Uninitialized)
      else
        var q := InsertUser(n, e);
        match store(q)
        case Rows(rows) => Exchange(Some(q), Response(201, FirstRow(rows)))
        case Failed(_) => Exchange(Some(q), ServerError)
  }

  /**
   * The routing table: one handler per method and path. Every modelled
   * route ends in one of four statuses, health never touches the store,
   * and a route only ever issues its own query.
   */
  function Handle(req: Request, pool: Pool, store: Store, now: string): (x: Exchange)
    ensures x.response.status in {200, 201, 400, 500}
    ensures req.HealthCheck? ==> x == Exchange(None, Response(200, HealthBody("healthy", now)))
    ensures x.issued.Some? ==>
      || (req.ListRequest? && x.issued.value == SelectNewestFirst)
      || (req.PostRequest? && !Falsy(req.name) && !Falsy(req.email)
          && x.issued.value == InsertUser(req.name.value, req.email.value))
    ensures x.issued.None? ==>
      pool.Unset? || req.HealthCheck? || (req.PostRequest? && (Falsy(req.name) || Falsy(req.email)))
  {
    match req
    case HealthCheck => Exchange(None, Health(now))
    case ListRequest => GetUsers(pool, store)
    case PostRequest(name, email) => PostUsers(name, email, pool, store)
  }

  /** Health answers 200 "healthy" whatever the pool and store, querying nothing. */
  lemma HealthIndependentOfStore(p1: Pool, s1: Store, p2: Pool, s2: Store, now: string)
    ensures Handle(HealthCheck, p1, s1, now) == Handle(HealthCheck, p2, s2, now)
    ensures Handle(HealthCheck, p1, s1, now).issued.None?
    ensures Handle(HealthCheck, p1, s1, now).response.status == 200
  {
  }

  /**
   * A create with a falsy field is answered 400 without a query whether or
   * not the pool exists: validation comes before the pool check.
   */
  lemma ValidationBeforePoolCheck(name: Option<string>, email: Option<string>, p1: Pool, s1: Store, p2: Pool, s2: Store)
    requires Falsy(name) || Falsy(email)
    ensures PostUsers(name, email, p1, s1) == PostUsers(name, email, p2, s2)
    ensures PostUsers(name, email, p1, s1).response.status == 400
  {
  }

  /** `POST /users {}` on a module loaded without startup: 400 with the fixed message. */
  lemma EmptyBodyWithoutStartup(store: Store)
    ensures var x := Handle(PostRequest(None, None), Unset, store, "");
      x.response.status == 400 && x.response.body.error == "Name and email are required"
  {
  }

  /**
   * A handler's response depends on the store only through the query it
   * issued: two stores that agree on that query give the same exchange.
   */
  lemma OnlyIssuedQueryObserved(req: Request, pool: Pool, s1: Store, s2: Store, now: string)
    requires Handle(req, pool, s1, now).issued.Some? ==>
      s1(Handle(req, pool, s1, now).issued.value) == s2(Handle(req, pool, s1, now).issued.value)
    ensures Handle(req, pool, s1, now) == Handle(req, pool, s2, now)
  {
  }

  /**
   * A store failure never reaches the client: whatever error detail two
   * stores throw on the query issued, the response is the same fixed 500.
   */
  lemma FailureDetailHidden(req: Request, pool: Pool, s1: Store, s2: Store, now: string)
    requires var q := Handle(req, pool, s1, now).issued;
      q.Some? ==> s1(q.value).Failed? && s2(q.value).Failed?
    ensures Handle(req, pool, s1, now).response == Handle(req, pool, s2, now).response
    ensures Handle(req, pool, s1, now).issued.Some? ==>
      Handle(req, pool, s1, now).response == ServerError
  {
  }
}
