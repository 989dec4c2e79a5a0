/**
 * The two variants as two storages behind one HTTP contract. With a ready
 * pool and a database that inserts the way the in-memory table does, the
 * database-backed create answers exactly as the in-memory one. The lists
 * differ in order: the database returns the newest record first, the
 * in-memory variant returns the array in insertion order.
 */
module StorageChoice {
  import opened Http
  import SimpleApp
  import DbApp

  /** The records of `users`, last appended first. */
  function NewestFirst(users: seq<User>): (r: seq<User>)
    ensures |r| == |users|
    ensures forall i :: 0 <= i < |users| ==> r[i] == users[|users| - 1 - i]
  {
    seq(|users|, i requires 0 <= i < |users| => users[|users| - 1 - i])
  }

  /**
   * A database holding the rows of `t`: the insert returns the record the
   * in-memory variant would append, and the newest-first select returns
   * the rows last appended first (records are created with non-decreasing
   * timestamps; among equal timestamps the store may choose any order, and
   * this is one it may choose).
   */
  function TableStore(t: SimpleApp.Table, now: string): DbApp.Store {
    (q: DbApp.Query) =>
      match q
      case SelectNewestFirst => DbApp.Rows(NewestFirst(t.users))
      case InsertUser(n, e) => DbApp.Rows([SimpleApp.NewUser(t, n, e, now)])
  }

  /** POST /users gets the same response from both variants. */
  lemma CreateAgrees(t: SimpleApp.Table, name: Option<string>, email: Option<string>, now: string)
    ensures DbApp.PostUsers(name, email, DbApp.Ready, TableStore(t, now)).response
         == SimpleApp.PostUsers(t, name, email, now).0
  {
  }

  /**
   * GET /users: both variants answer 200 with the same records, the
   * database-backed list being the in-memory list read backwards.
   */
  lemma ListOrderReversed(t: SimpleApp.Table, now: string)
    ensures var db := DbApp.GetUsers(DbApp.Ready, TableStore(t, now)).response;
      var mem := SimpleApp.GetUsers(t);
      && db.status == mem.status == 200
      && db.body.UserList? && mem.body.UserList?
      && |db.body.users| == |mem.body.users| == |t.users|
      && forall i :: 0 <= i < |t.users| ==> db.body.users[i] == mem.body.users[|t.users| - 1 - i]
  {
  }

  /** With two or more users, the two variants list them differently. */
  lemma ListOrderDiffers(t: SimpleApp.Table, now: string)
    requires SimpleApp.WellNumbered(t) && |t.users| >= 2
    ensures DbApp.GetUsers(DbApp.Ready, TableStore(t, now)).response != SimpleApp.GetUsers(t)
  {
    var db := DbApp.GetUsers(DbApp.Ready, TableStore(t, now)).response;
    SimpleApp.WellNumberedIdsDistinct(t, 0, |t.users| - 1);
    assert db.body.users[0] == t.users[|t.users| - 1];
  }

  /**
   * Where the variants differ: before startup the database-backed create
   * refuses a valid body with 500, which the in-memory variant never does.
   */
  lemma CreateDiffersWithoutPool(t: SimpleApp.Table, name: string, email: string, store: DbApp.Store, now: string)
    requires name != "" && email != ""
    ensures DbApp.PostUsers(Some(name), Some(email), DbApp.Unset, store).response.status == 500
    ensures SimpleApp.PostUsers(t, Some(name), Some(email), now).0.status == 201
  {
  }
}
