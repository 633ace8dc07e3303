/**
 * The verify callback of the local Passport strategy: look the submitted
 * username up, then check the submitted password against the stored digest.
 */
module LocalStrategy {
  import opened Wrappers
  import opened Users
  import opened Bcrypt

  const IncorrectUsername := "Incorrect username"
  const IncorrectPassword := "Incorrect password"

  /**
   * What the callback hands to `next`: an error, a failure `false` with a
   * flash message, or the authenticated user.
   */
  datatype AuthResult = AuthError(error: StoreError) | AuthFailure(message: string) | AuthSuccess(user: User)

  /** The `(err, user)` branch of the callback. */
  function VerifyReply(reply: Reply, password: string, compare: CompareSync): (r: AuthResult)
    ensures r.AuthError? <==> reply.Failed?
    ensures r.AuthError? ==> r.error == reply.error
    ensures r.AuthSuccess? <==> reply.Answer? && reply.user.Some? && compare(password, reply.user.value.password)
    ensures r.AuthSuccess? ==> r.user == reply.user.value
    ensures r.AuthFailure? ==> r.message == if reply.user.None? then IncorrectUsername else IncorrectPassword
  {
    match reply
    case Failed(e) => AuthError(e)
    case Answer(None) => AuthFailure(IncorrectUsername)
    case Answer(Some(u)) =>
      if !compare(password, u.password) then AuthFailure(IncorrectPassword)
      else AuthSuccess(u)
  }

  /** The whole callback: `User.findOne({username})` followed by `VerifyReply`. */
  function Authenticate(users: seq<User>, fault: Option<StoreError>, username: string, password: string,
                        compare: CompareSync): (r: AuthResult)
    ensures r.AuthSuccess? ==>
      r.user in users && r.user.username == username && compare(password, r.user.password)
  {
    VerifyReply(Lookup(users, fault, ByUsername(username)), password, compare)
  }

  /** A store error is passed on unchanged, before the username or the password is looked at. */
  lemma StoreErrorPassedThrough(users: seq<User>, e: StoreError, username: string, password: string,
                                compare: CompareSync)
    ensures Authenticate(users, Some(e), username, password, compare) == AuthError(e)
  {
  }

  /**
   * An unknown username fails with "Incorrect username", and the outcome does
   * not depend on the compare function: the password is never compared.
   */
  lemma UnknownUsernameFails(users: seq<User>, username: string, password: string,
                             compare: CompareSync, other: CompareSync)
    requires forall u | u in users :: u.username != username
    ensures Authenticate(users, None, username, password, compare) == AuthFailure(IncorrectUsername)
    ensures Authenticate(users, None, username, password, compare) ==
            Authenticate(users, None, username, password, other)
  {
  }

  /** A known username whose digest does not match fails with "Incorrect password". */
  lemma WrongPasswordFails(users: seq<User>, u: User, password: string, compare: CompareSync)
    requires UniqueUsernames(users) && u in users
    requires !compare(password, u.password)
    ensures Authenticate(users, None, u.username, password, compare) == AuthFailure(IncorrectPassword)
  {
  }

  /** A known username whose digest matches succeeds with exactly that record. */
  lemma RightPasswordSucceeds(users: seq<User>, u: User, password: string, compare: CompareSync)
    requires UniqueUsernames(users) && u in users
    requires compare(password, u.password)
    ensures Authenticate(users, None, u.username, password, compare) == AuthSuccess(u)
  {
  }
}
