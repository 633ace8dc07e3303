/**
 * The session identity codec: `serializeUser` keeps only the user's `_id` in
 * the session, `deserializeUser` turns that id back into a record with
 * `User.findById` on every request.
 */
module Session {
  import opened Wrappers
  import opened Users

  /** What `deserializeUser` hands to its callback: an error, null, or the record. */
  datatype Identity = DeserializeError(error: StoreError) | NoUser | Attached(user: User)

  function SerializeUser(user: User): (id: Id)
  {
    user.id
  }

  function DeserializeUser(users: seq<User>, fault: Option<StoreError>, id: Id): (r: Identity)
    ensures r.DeserializeError? <==> fault.Some?
    ensures fault.Some? ==> r == DeserializeError(fault.value)
    ensures fault.None? ==> (r == NoUser <==> id !in Ids(users))
    ensures r.Attached? ==> r.user in users && r.user.id == id
  {
    match Lookup(users, fault, ById(id))
    case Failed(e) => DeserializeError(e)
    case Answer(None) => NoUser
    case Answer(Some(u)) => Attached(u)
  }

  /** The session token of a stored user, read back from an unchanged store, is that user. */
  lemma SessionRoundTrip(users: seq<User>, u: User)
    requires UniqueIds(users) && u in users
    ensures SerializeUser(u) == u.id
    ensures DeserializeUser(users, None, SerializeUser(u)) == Attached(u)
  {
  }

  /** A token whose record has gone reads back as no user, not as an error. */
  lemma GoneUserIsNoUser(users: seq<User>, u: User)
    requires forall v | v in users :: v.id != u.id
    ensures DeserializeUser(users, None, SerializeUser(u)) == NoUser
  {
  }
}
