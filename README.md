# User service: in-memory store and request decisions

A Dafny model of a small HTTP service that exposes one resource, the user
(`{ id, name, email, created_at }`), through `GET /users` and `POST /users`,
plus a `GET /health` liveness endpoint. The service comes in two variants:

- **In-memory** (`src/simple-app.js`). A module-level `users` array is seeded
  with one demo record and a `nextId` counter starts at 2. A create validates
  `name` and `email`, takes `nextId` as the new id, bumps the counter and
  pushes the record. A list returns the whole array.
- **Database-backed** (`src/app.js`). The module-level `pool` is assigned at
  startup. The POST handler checks the body, then the pool; the GET handler
  checks only the pool. Each then awaits one query and turns its outcome into
  a status and a body.

Files:

- `http.dfy` (module `Http`): the shared values. These are the user record,
  body fields as `Option<string>`, JavaScript falsiness of a field (`Falsy`:
  missing or the empty string), the response bodies and the three fixed
  error messages.
- `simple_app.dfy` (module `SimpleApp`): the in-memory variant. The table
  value `Table(users, nextId)` comes with the handlers as functions over it
  (`PostUsers`, `GetUsers`). The id invariant `WellNumbered` says ids
  strictly increase in list order and all lie below `nextId`. The stronger
  `Dense` says ids are exactly 1..n and `nextId` is n + 1. The class
  `UserStore` holds `users` and `nextId` as fields. Its `Create` method
  mutates them in place and is proved against `PostUsers`.
- `db_app.dfy` (module `DbApp`): the database-backed handlers as pure
  decisions. The pool is `Unset` or `Ready`. The database is an oracle
  `Store = Query -> QueryOutcome` from the query issued to the rows
  returned, or to a thrown error. Each handler yields an `Exchange`: the
  query it issued (if any) and the response.
- `storage_choice.dfy` (module `StorageChoice`): the two variants are two
  storages behind one HTTP contract. With a ready pool and a database that
  inserts as the table does, both variants give the same response to a
  create. They list the same records in opposite orders: the database
  returns the newest first (`ORDER BY created_at DESC`), the in-memory
  variant returns insertion order.

Timestamps (`new Date().toISOString()`) are opaque strings passed in by the
caller (`startedAt`, `now`).

## Model

| member | source | states |
|---|---|---|
| Http.ValidFields | src/simple-app.js:36-40 | a body is accepted exactly when both `name` and `email` are present and non-empty, and then yields those two strings unchanged |
| SimpleApp.Seed | src/simple-app.js:13-16 | the initial state holds exactly one record, with id 1, and the counter is 2; it satisfies both id invariants |
| SimpleApp.PostUsers | src/simple-app.js:35-51 | a falsy field gives 400 "Name and email are required" and the same table; status 201 happens exactly when both fields are present and non-empty; a valid create returns the record with id = old `nextId` and exactly the submitted name and email, appends exactly that record, and advances the counter by one |
| SimpleApp.GetUsers | src/simple-app.js:31-33 | status 200 and every record of the table at its own position, with nothing filtered or reordered |
| SimpleApp.CreatePreservesWellNumbered | src/simple-app.js:42-49 | create keeps ids strictly increasing in list order and below `nextId` |
| SimpleApp.CreatePreservesDense | src/simple-app.js:42-49 | create keeps ids equal to 1..n with `nextId` = n + 1 |
| SimpleApp.WellNumberedIdsDistinct | src/simple-app.js:13-16 | under the invariant, ids of different records are distinct |
| SimpleApp.CreatedIdIsFresh | src/simple-app.js:42-43 | the id a valid create assigns belongs to no record already in the table |
| SimpleApp.DuplicateEmailAccepted | src/simple-app.js:38-49 | there is no email uniqueness check: a create reusing a stored email succeeds, and the list then holds two records with that email under different ids |
| SimpleApp.FirstCreateAfterSeed | src/simple-app.js:13-51 | from a fresh start, `POST {}` is refused with no change; a create for Ada gets id 2; the list is then the demo record followed by Ada's |
| SimpleApp.ReplayGrowth | src/simple-app.js:35-51 | after any series of creates, earlier records are untouched, the list and the counter both grow by exactly the number of valid requests, and the id invariant holds |
| SimpleApp.ReplayKeepsDense | src/simple-app.js:42-49 | any series of creates keeps ids dense |
| SimpleApp.ReplayFromSeedDense | src/simple-app.js:13-16 | in every reachable state, ids are 1..n and `nextId` is n + 1 |
| SimpleApp.UserStore.constructor | src/simple-app.js:13-16 | the fields start as the seed state, which satisfies the id invariant |
| SimpleApp.UserStore.Create | src/simple-app.js:35-51 | the in-place update matches `PostUsers`. On rejection it returns 400 and leaves the object unchanged. Otherwise `nextId` is incremented, the new record is appended to `users`, it is returned with 201, and the invariant is kept |
| SimpleApp.UserStore.List | src/simple-app.js:31-33 | returns status 200 with the `users` field as it stands |
| DbApp.Health | src/app.js:56-58 | status 200, status text "healthy", and the supplied timestamp |
| DbApp.GetUsers | src/app.js:60-71 | without a pool, no query is issued and the response is 500 "Database not initialized". With a pool, exactly the select is issued. The response is then 200 with the rows exactly as the store returned them, or the fixed 500 "Internal server error" on failure |
| DbApp.FirstRow | src/app.js:88 | the created body is the first returned row, or no body when the store returned none |
| DbApp.PostUsers | src/app.js:73-93 | a falsy field gives 400 with no query, whatever the pool. Valid fields without a pool give 500 "Database not initialized" with no query. A query is issued exactly when the fields are valid and the pool is ready, and it is the insert of exactly the submitted name and email. Success gives 201 with the first row; failure gives the fixed 500 |
| DbApp.Handle | src/app.js:56-93 | a request to any of the three modelled routes ends with status 200, 201, 400 or 500; health gives 200 "healthy" with the timestamp and no query; a route only issues its own query: GET only the select, POST only the insert of the submitted fields and only when both are non-empty; no query is issued only when the pool is unset, the route is health, or a POST field is falsy |
| DbApp.HealthIndependentOfStore | src/app.js:56-58 | health gives the same 200 response whatever the pool and store, and queries nothing |
| DbApp.ValidationBeforePoolCheck | src/app.js:76-83 | a create with a falsy field gives the same 400 exchange whether or not the pool is set |
| DbApp.EmptyBodyWithoutStartup | tests/app.test.js:14-21 | `POST /users {}` on a module loaded without startup gives 400 "Name and email are required" |
| DbApp.OnlyIssuedQueryObserved | src/app.js:60-93 | a response depends on the database only through the one query the handler issued |
| DbApp.FailureDetailHidden | src/app.js:67-92 | when the issued query fails, whatever error detail the store throws, the client sees the same response, and that response is the fixed 500; this covers both the GET catch (67-70) and the POST catch (89-92) |
| StorageChoice.CreateAgrees | src/app.js:73-93 | with a ready pool and a database that inserts like the in-memory table, POST gives the same response in both variants |
| StorageChoice.ListOrderReversed | src/app.js:60-71 | with a ready pool and a database that answers the newest-first select with the table's rows, both variants answer GET with 200 and the same records, the database list being the in-memory list read backwards |
| StorageChoice.ListOrderDiffers | src/app.js:65 | with two or more users under the id invariant, the two variants' GET responses differ, because the first record of one is the last of the other |
| StorageChoice.CreateDiffersWithoutPool | src/app.js:80-83 | before startup the database-backed create answers a valid body with 500, where the in-memory variant answers 201 |

## Left out

- The counter's width: in JavaScript `nextId` is a double, so once it reaches 2^53, `nextId++` (`src/simple-app.js:43`) no longer changes it and every later create gets the same id. The model's `nextId` is an unbounded `nat`, so `WellNumbered`, `Dense`, `SimpleApp.WellNumberedIdsDistinct`, `SimpleApp.CreatedIdIsFresh`, `SimpleApp.ReplayKeepsDense` and `SimpleApp.ReplayFromSeedDense` are proved for an unbounded counter, and so are the "counter goes up by one" clauses of `SimpleApp.PostUsers`, `SimpleApp.UserStore.Create` and `SimpleApp.ReplayGrowth`. In the source the first create made once the counter has reached 2^53 gets the same id as the next one, so they hold only until that point.
- Routes and failures outside the three handlers: Express answers 404 for other paths, and the JSON body parser answers 400 or 413 for a malformed or oversized body before any handler runs. `DbApp.Handle` covers only the three modelled routes.
- Secret retrieval and pool construction in `initDatabase` (`src/app.js:16-38`): these are calls to a remote secret service and to the `pg` driver. The pool appears only as `Unset` or `Ready`.
- The SQL semantics (`src/app.js:40-47, 65, 84-87`): the `CREATE TABLE IF NOT EXISTS` schema step, the `ORDER BY created_at DESC` order, the serial id and the `UNIQUE` email constraint all belong to PostgreSQL. The store is an arbitrary oracle. So the model does not state that the database orders the list newest first, or that it rejects a duplicate email (that rejection reaches the client only as the generic 500).
- `process.exit(1)` on a failed startup, `startServer` and `app.listen` (`src/app.js:50-53, 95-104`, `src/simple-app.js:53-60`): process plumbing and asynchronous startup.
- Middleware registration (helmet, cors, JSON body parsing), environment reads and every `console.log`/`console.error`.
- The in-memory variant's `/health` (`src/simple-app.js:18-29`): apart from the environment echo, it is the same liveness reply that `DbApp.Health` models.
- Request-body values other than a string or a missing key: JavaScript also treats `0`, `false` and `NaN` as falsy, and a non-string truthy value would be stored as is. Body fields are modelled as `Option<string>`.
- Concurrency between in-flight requests: each handler call is modelled as one atomic step.
- Timestamps are parameters, so the model says nothing about their format or their order.
- First ids differ between the variants. On a freshly created table the database's serial id starts at 1. In the in-memory variant the seeded demo record holds id 1, so the first create gets id 2, as `SimpleApp.FirstCreateAfterSeed` states.
- A duplicate email is not answered with a conflict status. The database variant answers 500 and the in-memory variant accepts the duplicate (`SimpleApp.DuplicateEmailAccepted`). The model follows the code.
