/**
 * The in-memory variant of the service: a module-level `users` array seeded
 * with one demo record and a `nextId` counter. POST /users validates the
 * body, takes `nextId` as the new id, bumps the counter and appends the
 * record; GET /users returns the whole array.
 */
module SimpleApp {
  import opened Http

  /** The value of the module state: the `users` array and `nextId`. */
  datatype Table = Table(users: seq<User>, nextId: nat)

  /** The state at module load: one demo record with id 1, counter at 2. */
  function Seed(startedAt: string): (t: Table)
    ensures |t.users| == 1 && t.users[0].id == 1 && t.nextId == 2
    ensures WellNumbered(t) && Dense(t)
  {
    Table([User(1, "Demo User", "demo@example.com", startedAt)], 2)
  }

  /** Ids strictly increase in list order and all lie below the counter. */
  ghost predicate WellNumbered(t: Table) {
    && (forall i, j :: 0 <= i < j < |t.users| ==> t.users[i].id < t.users[j].id)
    && (forall i :: 0 <= i < |t.users| ==> t.users[i].id < t.nextId)
  }

  /** The stronger shape this variant actually keeps: ids are 1, 2, ..., n. */
  ghost predicate Dense(t: Table) {
    && t.nextId == |t.users| + 1
    && (forall i :: 0 <= i < |t.users| ==> t.users[i].id == i + 1)
  }

  /** The record a valid create appends. */
  function NewUser(t: Table, name: string, email: string, now: string): User {
    User(t.nextId, name, email, now)
  }

  /**
   * POST /users against the table: the response and the table afterwards.
   * A falsy field is answered with 400 before anything changes.
   */
  function PostUsers(t: Table, name: Option<string>, email: Option<string>, now: string): (r: (Response, Table))
    ensures Falsy(name) || Falsy(email) ==> r == (BadRequest, t)
    ensures r.0.status == 201 <==> !Falsy(name) && !Falsy(email)
    ensures !Falsy(name) && !Falsy(email) ==>
      var u := User(t.nextId, name.value, email.value, now);
      && r.0 == Response(201, UserBody(u))
      && r.1 == Table(t.users + [u], t.nextId + 1)
  {
    match ValidFields(name, email)
    case None => (BadRequest, t)
    case Some((n, e)) =>
      var user := NewUser(t, n, e, now);
      (Response(201, UserBody(user)), Table(t.users + [user], t.nextId + 1))
  }

  /** GET /users: status 200 and the whole array, in insertion order. */
  function GetUsers(t: Table): (r: Response)
    ensures r.status == 200 && r.body.UserList?
    ensures |r.body.users| == |t.users|
    ensures forall i :: 0 <= i < |t.users| ==> r.body.users[i] == t.users[i]
  {
    Response(200, UserList(t.users))
  }

  /** Create keeps ids increasing and below the counter. */
  lemma CreatePreservesWellNumbered(t: Table, name: Option<string>, email: Option<string>, now: string)
    requires WellNumbered(t)
    ensures WellNumbered(PostUsers(t, name, email, now).1)
  {
  }

  /** Create keeps ids dense: the record it adds has id |users| + 1. */
  lemma CreatePreservesDense(t: Table, name: Option<string>, email: Option<string>, now: string)
    requires Dense(t)
    ensures Dense(PostUsers(t, name, email, now).1)
  {
  }

  /** Increasing ids are pairwise distinct. */
  lemma WellNumberedIdsDistinct(t: Table, i: nat, j: nat)
    requires WellNumbered(t)
    requires i < |t.users| && j < |t.users| && i != j
    ensures t.users[i].id != t.users[j].id
  {
  }

  /** A valid create gives a record whose id no earlier record has. */
  lemma CreatedIdIsFresh(t: Table, name: Option<string>, email: Option<string>, now: string)
    requires WellNumbered(t)
    requires !Falsy(name) && !Falsy(email)
    ensures forall u :: u in t.users ==> u.id != PostUsers(t, name, email, now).0.body.user.id
  {
  }

  /**
   * No uniqueness check on email: creating a second user with an email
   * already in the table succeeds and leaves two records with that email.
   */
  lemma DuplicateEmailAccepted(t: Table, k: nat, name: string, now: string)
    requires WellNumbered(t)
    requires k < |t.users| && name != "" && t.users[k].email != ""
    ensures var r := PostUsers(t, Some(name), Some(t.users[k].email), now);
      && r.0.status == 201
      && r.1.users[k].email == r.1.users[|t.users|].email
      && r.1.users[k].id != r.1.users[|t.users|].id
  {
  }

  /**
   * From a fresh start: `POST /users {}` is refused and changes nothing;
   * a first valid create gets id 2 (the demo record holds id 1); the list
   * then holds the demo record followed by the new one.
   */
  lemma FirstCreateAfterSeed(startedAt: string, now: string)
    ensures PostUsers(Seed(startedAt), None, None, now) == (BadRequest, Seed(startedAt))
    ensures var r := PostUsers(Seed(startedAt), Some("Ada"), Some("ada@example.com"), now);
      && r.0 == Response(201, UserBody(User(2, "Ada", "ada@example.com", now)))
      && GetUsers(r.1).body.users == [Seed(startedAt).users[0], User(2, "Ada", "ada@example.com", now)]
  {
  }

  /** A create request: the body's `name` and `email` and the time it is served. */
  datatype CreateRequest = CreateRequest(name: Option<string>, email: Option<string>, now: string)

  /** The table after serving a series of creates in order. */
  function Replay(t: Table, reqs: seq<CreateRequest>): Table
    decreases |reqs|
  {
    if reqs == [] then t
    else Replay(PostUsers(t, reqs[0].name, reqs[0].email, reqs[0].now).1, reqs[1..])
  }

  /** How many of the requests carry both fields. */
  function ValidCount(reqs: seq<CreateRequest>): nat
  {
    if reqs == [] then 0
    else (if Falsy(reqs[0].name) || Falsy(reqs[0].email) then 0 else 1) + ValidCount(reqs[1..])
  }

  /**
   * After a series of creates: earlier records are untouched, the list
   * grows by exactly the number of valid requests, the counter advances by
   * the same number, and the id invariant still holds.
   */
  lemma {:induction false} ReplayGrowth(t: Table, reqs: seq<CreateRequest>)
    requires WellNumbered(t)
    ensures var t' := Replay(t, reqs);
      && |t'.users| == |t.users| + ValidCount(reqs)
      && t'.nextId == t.nextId + ValidCount(reqs)
      && t.users <= t'.users
      && WellNumbered(t')
    decreases |reqs|
  {
    if reqs != [] {
      var mid := PostUsers(t, reqs[0].name, reqs[0].email, reqs[0].now).1;
      CreatePreservesWellNumbered(t, reqs[0].name, reqs[0].email, reqs[0].now);
      ReplayGrowth(mid, reqs[1..]);
    }
  }

  /** From the seed, ids are always 1..n and the counter is n + 1. */
  lemma {:induction false} ReplayFromSeedDense(startedAt: string, reqs: seq<CreateRequest>)
    ensures Dense(Replay(Seed(startedAt), reqs))
  {
    ReplayKeepsDense(Seed(startedAt), reqs);
  }

  lemma {:induction false} ReplayKeepsDense(t: Table, reqs: seq<CreateRequest>)
    requires Dense(t)
    ensures Dense(Replay(t, reqs))
    decreases |reqs|
  {
    if reqs != [] {
      CreatePreservesDense(t, reqs[0].name, reqs[0].email, reqs[0].now);
      ReplayKeepsDense(PostUsers(t, reqs[0].name, reqs[0].email, reqs[0].now).1, reqs[1..]);
    }
  }

  /**
   * The object holding the module state. `Create` mutates it in place the
   * way the POST handler does (`nextId++`, `users.push(user)`).
   */
  class UserStore {
    var users: seq<User>
    var nextId: nat

    function State(): Table
      reads this
    {
      Table(users, nextId)
    }

    ghost predicate Valid()
      reads this
    {
      WellNumbered(State())
    }

    constructor (startedAt: string)
      ensures State() == Seed(startedAt) && Valid()
    {
      var seed := Seed(startedAt);
      users, nextId := seed.users, seed.nextId;
    }

    /** POST /users. */
    method Create(name: Option<string>, email: Option<string>, now: string) returns (res: Response)
      requires Valid()
      modifies this
      ensures Valid()
      ensures (res, State()) == PostUsers(old(State()), name, email, now)
      ensures Falsy(name) || Falsy(email) ==> res == BadRequest && unchanged(this)
      ensures !Falsy(name) && !Falsy(email) ==>
        && res == Response(201, UserBody(User(old(nextId), name.value, email.value, now)))
        && nextId == old(nextId) + 1
        && users == old(users) + [res.body.user]
    {
      if Falsy(name) || Falsy(email) {
        return BadRequest;
      }
      var user := User(nextId, name.value, email.value, now);
      nextId := nextId + 1;
      users := users + [user];
      res := Response(201, UserBody(user));
      CreatePreservesWellNumbered(old(State()), name, email, now);
    }

    /** GET /users. */
    method List() returns (res: Response)
      ensures res == GetUsers(State())
      ensures res.status == 200 && res.body == UserList(users)
    {
      res := Response(200, UserList(users));
    }
  }
}
