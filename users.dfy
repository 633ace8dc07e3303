/**
 * The user collection as the application sees it through Mongoose: records
 * `{_id, username, password, role}` kept in the collection's natural order,
 * and the two queries the application issues, `findOne({username})` and
 * `findById(id)`, each of which yields the first matching record or null,
 * or a store error.
 */
module Users {
  import opened Wrappers

  /** The application's home page, where a successful signup and a refused role check redirect. */
  const HomePath := "/"

  /** An ObjectId, assigned when a record is created and never changed. */
  type Id = nat

  /** One user document. `password` holds the bcrypt digest; `role` may be absent. */
  datatype User = User(id: Id, username: string, password: string, role: Option<string>)

  /** The opaque error a store call hands to its callback (for instance, no connection). */
  datatype StoreError = StoreError(reason: string)

  /** A query filter document. */
  datatype Query = ByUsername(username: string) | ById(id: Id)

  /** The callback pair `(err, user)` of a query: an error, or a record or null. */
  datatype Reply = Failed(error: StoreError) | Answer(user: Option<User>)

  predicate Matches(u: User, q: Query) {
    match q
    case ByUsername(name) => u.username == name
    case ById(id) => u.id == id
  }

  /** The first record, in natural order, that the filter matches. */
  function Find(users: seq<User>, q: Query): (r: Option<User>)
    ensures r.Some? ==> r.value in users && Matches(r.value, q)
    ensures r.None? <==> forall u | u in users :: !Matches(u, q)
  {
    if users == [] then None
    else if Matches(users[0], q) then Some(users[0])
    else Find(users[1..], q)
  }

  /** A query against a store that may fail: a fault is reported instead of an answer. */
  function Lookup(users: seq<User>, fault: Option<StoreError>, q: Query): (r: Reply)
    ensures r.Failed? <==> fault.Some?
    ensures r.Failed? ==> r.error == fault.value
    ensures r.Answer? ==> (r.user.None? <==> forall u | u in users :: !Matches(u, q))
    ensures r.Answer? && r.user.Some? ==> r.user.value in users && Matches(r.user.value, q)
  {
    match fault
    case Some(e) => Failed(e)
    case None => Answer(Find(users, q))
  }

  function Ids(users: seq<User>): (ids: set<Id>) {
    set u | u in users :: u.id
  }

  /** No two records of the collection share an `_id`. */
  ghost predicate UniqueIds(users: seq<User>) {
    forall i, j | 0 <= i < j < |users| :: users[i].id != users[j].id
  }

  /** No two records of the collection share a username. */
  ghost predicate UniqueUsernames(users: seq<User>) {
    forall i, j | 0 <= i < j < |users| :: users[i].username != users[j].username
  }

  /** Appending a record changes a query's answer only when nothing matched before. */
  lemma {:induction false} FindAppend(users: seq<User>, u: User, q: Query)
    ensures Find(users + [u], q) ==
      if Find(users, q).Some? then Find(users, q)
      else if Matches(u, q) then Some(u) else None
  {
    if users != [] {
      assert (users + [u])[1..] == users[1..] + [u];
      FindAppend(users[1..], u, q);
    }
  }

  /** A record with a unique `_id` is exactly what `findById` returns for that id. */
  lemma FindByUniqueId(users: seq<User>, u: User)
    requires UniqueIds(users) && u in users
    ensures Find(users, ById(u.id)) == Some(u)
  {
  }

  /** Under unique usernames, `findOne({username})` returns the one record with that name. */
  lemma FindByUniqueUsername(users: seq<User>, u: User)
    requires UniqueUsernames(users) && u in users
    ensures Find(users, ByUsername(u.username)) == Some(u)
  {
  }
}
