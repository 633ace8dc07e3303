/**
 * The `POST /signup` handler and the store it writes to. The handler refuses
 * an empty username or password, refuses a username that is already taken,
 * and otherwise saves a new record whose password field is the bcrypt digest.
 */
module UserStore {
  import opened Wrappers
  import opened Users
  import opened Bcrypt

  const MissingCredentials := "Indicate username and password"
  const UsernameTaken := "The username already exists"
  const SaveFailed := "Something went wrong"

  /** The handler's answer: the signup form with a message, a redirect, or the error passed to `next`. */
  datatype SignupResponse = RenderSignup(message: string) | RedirectTo(path: string) | PassToNext(error: StoreError)

  /** A response together with the collection as it stands afterwards. */
  datatype SignupStep = SignupStep(response: SignupResponse, users: seq<User>)

  /**
   * Whether `newUser.save` stores the record: it fails on a store fault and on
   * an `_id` the collection already holds.
   */
  predicate Saves(users: seq<User>, u: User, fault: bool) {
    !fault && u.id !in Ids(users)
  }

  /**
   * The effect of one signup request on the collection `users`. `hash` and
   * `salt` stand for bcrypt and the salt it generated, `newId` for the
   * ObjectId Mongoose assigns, `defaultRole` for the schema's default role,
   * `lookupFault` and `saveFault` for failures of the two store calls.
   */
  function SignupSpec(users: seq<User>, username: string, password: string, hash: HashSync, salt: string,
                      newId: Id, defaultRole: Option<string>, lookupFault: Option<StoreError>,
                      saveFault: bool): (step: SignupStep)
  {
    if username == "" || password == "" then SignupStep(RenderSignup(MissingCredentials), users)
    else match Lookup(users, lookupFault, ByUsername(username))
      case Failed(e) => SignupStep(PassToNext(e), users)
      case Answer(Some(_)) => SignupStep(RenderSignup(UsernameTaken), users)
      case Answer(None) =>
        var u := User(newId, username, hash(password, salt), defaultRole);
        if Saves(users, u, saveFault) then SignupStep(RedirectTo(HomePath), users + [u])
        else SignupStep(RenderSignup(SaveFailed), users)
  }

  /** An empty username or password is refused and nothing is stored. */
  lemma MissingCredentialsRefused(users: seq<User>, username: string, password: string, hash: HashSync,
                                  salt: string, newId: Id, defaultRole: Option<string>,
                                  lookupFault: Option<StoreError>, saveFault: bool)
    requires username == "" || password == ""
    ensures SignupSpec(users, username, password, hash, salt, newId, defaultRole, lookupFault, saveFault)
            == SignupStep(RenderSignup(MissingCredentials), users)
  {
  }

  /** A username that is already stored is refused and nothing is stored. */
  lemma DuplicateUsernameRefused(users: seq<User>, username: string, password: string, hash: HashSync,
                                 salt: string, newId: Id, defaultRole: Option<string>, saveFault: bool)
    requires username != "" && password != ""
    requires exists u | u in users :: u.username == username
    ensures SignupSpec(users, username, password, hash, salt, newId, defaultRole, None, saveFault)
            == SignupStep(RenderSignup(UsernameTaken), users)
  {
  }

  /**
   * The collection changes only on the redirect, and then by exactly one
   * record appended at the end: the submitted username, the digest of the
   * password, the new id and the default role.
   */
  lemma SignupAppendsOnlyOnSuccess(users: seq<User>, username: string, password: string, hash: HashSync,
                                   salt: string, newId: Id, defaultRole: Option<string>,
                                   lookupFault: Option<StoreError>, saveFault: bool)
    ensures var step := SignupSpec(users, username, password, hash, salt, newId, defaultRole, lookupFault, saveFault);
      && (step.response == RedirectTo(HomePath) <==>
            username != "" && password != "" && lookupFault.None? &&
            (forall u | u in users :: u.username != username) &&
            !saveFault && newId !in Ids(users))
      && (step.response == RedirectTo(HomePath) ==>
            step.users == users + [User(newId, username, hash(password, salt), defaultRole)])
      && (step.response != RedirectTo(HomePath) ==> step.users == users)
  {
  }

  /** Signup keeps `_id`s unique, and keeps usernames unique when they were. */
  lemma SignupKeepsUniqueness(users: seq<User>, username: string, password: string, hash: HashSync,
                              salt: string, newId: Id, defaultRole: Option<string>,
                              lookupFault: Option<StoreError>, saveFault: bool)
    requires UniqueIds(users)
    ensures var after := SignupSpec(users, username, password, hash, salt, newId, defaultRole, lookupFault, saveFault).users;
      UniqueIds(after) && (UniqueUsernames(users) ==> UniqueUsernames(after))
  {
    var step := SignupSpec(users, username, password, hash, salt, newId, defaultRole, lookupFault, saveFault);
    if step.users != users {
      SignupAppendsOnlyOnSuccess(users, username, password, hash, salt, newId, defaultRole, lookupFault, saveFault);
      var u := User(newId, username, hash(password, salt), defaultRole);
      AppendKeepsUnique(users, u);
    }
  }

  lemma AppendKeepsUnique(users: seq<User>, u: User)
    requires u.id !in Ids(users)
    ensures UniqueIds(users) ==> UniqueIds(users + [u])
    ensures UniqueUsernames(users) && (forall v | v in users :: v.username != u.username) ==>
            UniqueUsernames(users + [u])
  {
  }

  /**
   * The user collection. `users` is in natural order; `defaultRole` is the role
   * the schema gives a record created without one.
   */
  class Store {
    var users: seq<User>
    const defaultRole: Option<string>

    /** The collection's unique index on `_id`. */
    ghost predicate Valid()
      reads this
    {
      UniqueIds(users)
    }

    constructor (defaultRole: Option<string>)
      ensures Valid() && users == [] && this.defaultRole == defaultRole
    {
      users := [];
      this.defaultRole := defaultRole;
    }

    /** `newUser.save`: appends the record unless the store fails or the `_id` is taken. */
    method Save(u: User, fault: bool) returns (saved: bool)
      requires Valid()
      modifies this
      ensures Valid()
      ensures saved == Saves(old(users), u, fault)
      ensures users == if saved then old(users) + [u] else old(users)
    {
      saved := !fault && u.id !in Ids(users);
      if saved {
        AppendKeepsUnique(users, u);
        users := users + [u];
      }
    }

    /** The `POST /signup` handler. */
    method Signup(username: string, password: string, hash: HashSync, salt: string, newId: Id,
                  lookupFault: Option<StoreError>, saveFault: bool) returns (response: SignupResponse)
      requires Valid()
      modifies this
      ensures Valid()
      ensures UniqueUsernames(old(users)) ==> UniqueUsernames(users)
      ensures SignupStep(response, users) ==
              SignupSpec(old(users), username, password, hash, salt, newId, defaultRole, lookupFault, saveFault)
    {
      if username == "" || password == "" {
        return RenderSignup(MissingCredentials);
      }
      var reply := Lookup(users, lookupFault, ByUsername(username));
      if reply.Failed? {
        return PassToNext(reply.error);
      }
      if reply.user != None {
        return RenderSignup(UsernameTaken);
      }
      var hashPass := hash(password, salt);
      var newUser := User(newId, username, hashPass, defaultRole);
      var saved := Save(newUser, saveFault);
      SignupKeepsUniqueness(old(users), username, password, hash, salt, newId, defaultRole, lookupFault, saveFault);
      if saved {
        response := RedirectTo(HomePath);
      } else {
        response := RenderSignup(SaveFailed);
      }
    }
  }
}
