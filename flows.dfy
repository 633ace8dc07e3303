/**
 * How the pieces combine: a user who has just signed up can log in with the
 * password they chose, cannot log in with any other password, and the
 * session token minted at login reads back as the same record.
 */
module Flows {
  import opened Wrappers
  import opened Users
  import opened Bcrypt
  import opened LocalStrategy
  import opened Session
  import opened UserStore

  /**
   * After a successful signup, and given that bcrypt's compare accepts the
   * password against its own digest, logging in with that password yields
   * the new record; a password the compare rejects fails with
   * "Incorrect password"; and the new record's session token reads back as it.
   */
  lemma SignupThenLogin(users: seq<User>, username: string, password: string, hash: HashSync,
                        compare: CompareSync, salt: string, newId: Id, defaultRole: Option<string>,
                        wrong: string)
    requires SignupSpec(users, username, password, hash, salt, newId, defaultRole, None, false).response
             == RedirectTo(HomePath)
    requires compare(password, hash(password, salt))
    requires !compare(wrong, hash(password, salt))
    ensures var after := SignupSpec(users, username, password, hash, salt, newId, defaultRole, None, false).users;
            var created := User(newId, username, hash(password, salt), defaultRole);
      && Authenticate(after, None, username, password, compare) == AuthSuccess(created)
      && Authenticate(after, None, username, wrong, compare) == AuthFailure(IncorrectPassword)
      && DeserializeUser(after, None, SerializeUser(created)) == Attached(created)
  {
    SignupAppendsOnlyOnSuccess(users, username, password, hash, salt, newId, defaultRole, None, false);
    var created := User(newId, username, hash(password, salt), defaultRole);
    FindAppend(users, created, ByUsername(username));
    FindAppend(users, created, ById(newId));
  }
}
