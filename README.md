# passport-login: authentication core

A model of the decision logic inside the passport-login Express application:
the local strategy's credential check, the session identity codec, the
`POST /signup` handler and the `checkRoles` middleware factory. The user
collection is modelled as a sequence of records `{_id, username, password,
role}` in the collection's natural order. `findOne({username})` and
`findById(id)` return the first matching record or null (`Users.Find`).
Either call may fail instead (`Users.Lookup`).

Modules, one per component:

- `Wrappers`: `Option`, for JavaScript values that may be null.
- `Bcrypt`: the types of `hashSync` and `compareSync`. The application gets
  these from a library, so the model takes them as function parameters and
  assumes nothing about them. A lemma that needs a bcrypt property states
  it in its own `requires`.
- `Users`: the record type, the query filters, the store's callback reply,
  first-match lookup, and the uniqueness predicates on `_id` and username.
- `LocalStrategy`: the verify callback. Its result is a store error, a
  failure with the flash message "Incorrect username" or "Incorrect
  password", or success with the found record.
- `Session`: `serializeUser` keeps `_id`. `deserializeUser` looks it up
  again and yields an error, no user, or the record.
- `UserStore`: the pure specification `SignupSpec` of one signup request,
  its lemmas, and the `Store` class. The class holds the collection as a
  field. Its `Signup` method performs the handler's steps and is proved
  against `SignupSpec`. Its `Save` method appends a record.
- `Roles`: `CheckRoles(roles)` returns the middleware as a function value,
  as the source's curried closure does. `CheckAdminOrEditor` and
  `CheckAdmin` apply its two instances to a request.
- `Flows`: signup followed by login and session restore.

Environment inputs become parameters:

- the bcrypt functions and the generated salt;
- the ObjectId Mongoose assigns to a new record;
- whether each store call fails (`lookupFault`, `saveFault`).

The `User` schema lives in `./models/user`, which this model does not
cover. The role it gives a new record is therefore the `defaultRole`
constant of the `Store` class.

Notes on the code's behaviour:

- When a session id's record is gone, `findById` answers `cb(null, null)`.
  The model gives `NoUser` for this, the same outcome as any null answer.
  It is not an error.
- The `User` schema in `./models/user` is not part of this model, so
  whether the collection has a unique index on `username` is not visible.
  The model assumes no such index. It proves that signup's `findOne` check
  keeps usernames unique when they were unique before (see
  `UserStore.SignupKeepsUniqueness` and `UserStore.Store.Signup`). The
  store invariant `Store.Valid` is Mongo's unique `_id` index.
- The credential check fails with one of two distinct flash messages,
  "Incorrect username" or "Incorrect password".

## Model

| member | source | states |
|---|---|---|
| Users.Find | passport-login/app.js:88-92 | the answer is a stored record that matches the filter, and it is null exactly when no stored record matches |
| Users.Lookup | passport-login/app.js:161-164 | an error iff the store call fails, carrying that fault; otherwise the answer is null iff no stored record matches the filter, and a present answer is a stored record that matches |
| Users.FindAppend | passport-login/app.js:216 | after a record is appended, a query's answer is unchanged if something already matched, and otherwise is the new record exactly when it matches |
| Users.FindByUniqueId | passport-login/app.js:161 | with unique `_id`s, `findById` of a stored record's id returns that record |
| Users.FindByUniqueUsername | passport-login/app.js:88-91 | with unique usernames, `findOne({username})` returns the one record with that name |
| LocalStrategy.VerifyReply | passport-login/app.js:92-110 | an error iff the store failed, carrying that error; success iff a record was found and the compare accepts the password, carrying exactly that record; otherwise "Incorrect username" when nothing was found and "Incorrect password" when something was |
| LocalStrategy.Authenticate | passport-login/app.js:87-111 | success only with a stored record that has the submitted username and whose digest the compare accepts for the submitted password |
| LocalStrategy.StoreErrorPassedThrough | passport-login/app.js:94-96 | a store error is returned unchanged whatever the username, password and compare |
| LocalStrategy.UnknownUsernameFails | passport-login/app.js:98-102 | an unknown username fails with "Incorrect username", and the outcome is the same under any compare function, so the password is never compared |
| LocalStrategy.WrongPasswordFails | passport-login/app.js:103-107 | a known username (usernames unique) whose digest the compare rejects fails with "Incorrect password" |
| LocalStrategy.RightPasswordSucceeds | passport-login/app.js:103-109 | a known username (usernames unique) whose digest the compare accepts succeeds with exactly that record |
| Session.SerializeUser | passport-login/app.js:124-129 | has no `ensures` of its own; `Session.SessionRoundTrip` states that the token is exactly the user's `_id` and reads back as the same user |
| Session.DeserializeUser | passport-login/app.js:157-167 | an error iff the store call fails, carrying that fault; otherwise "no user" iff no stored record has the id; an attached user is a stored record with that id |
| Session.SessionRoundTrip | passport-login/app.js:124-129 | the token is exactly the user's `_id`, and reading it back from an unchanged store (unique ids) gives the same user |
| Session.GoneUserIsNoUser | passport-login/app.js:161-165 | a token whose record is no longer stored reads back as no user, not as an error |
| Roles.CheckRoles | passport-login/app.js:261-274 | the middleware calls `next` iff the request is authenticated and its user's role is in the list; in every other case it redirects, to `/` when authenticated and to `/login` when not |
| Roles.CheckAdminOrEditor | passport-login/app.js:277 | `checkRoles(["ADMIN", "EDITOR"])`: allows iff the request is authenticated and the user's role is "ADMIN" or "EDITOR" |
| Roles.CheckAdmin | passport-login/app.js:278 | `checkRoles(["ADMIN"])`: allows iff the request is authenticated and the user's role is "ADMIN" |
| Roles.AnonymousGoesToLogin | passport-login/app.js:267-271 | for every role list, an unauthenticated request is redirected to `/login` |
| Roles.CheckRolesMonotone | passport-login/app.js:264 | a request allowed under a role list is allowed under any list that contains it |
| Roles.AdminPageImpliesEditorPage | passport-login/app.js:277-278 | every request `checkAdmin` allows, `checkAdminOrEditor` allows too |
| Roles.EditorScenario | passport-login/app.js:277-278 | a user with role "EDITOR" is redirected to `/` by `checkAdmin` and allowed by `checkAdminOrEditor` |
| Roles.AnonymousScenario | passport-login/app.js:264-270 | an unauthenticated request is redirected to `/login` by both `checkAdmin` and `checkAdminOrEditor` |
| UserStore.SignupSpec | passport-login/app.js:185-230 | has no `ensures` of its own; its behaviour is stated by `UserStore.MissingCredentialsRefused`, `UserStore.DuplicateUsernameRefused`, `UserStore.SignupAppendsOnlyOnSuccess` and `UserStore.SignupKeepsUniqueness` |
| UserStore.MissingCredentialsRefused | passport-login/app.js:188-194 | an empty username or password renders "Indicate username and password" and leaves the collection unchanged |
| UserStore.DuplicateUsernameRefused | passport-login/app.js:196-206 | a username already stored renders "The username already exists" and leaves the collection unchanged |
| UserStore.SignupAppendsOnlyOnSuccess | passport-login/app.js:208-225 | the redirect to `/` happens iff both fields are non-empty, the lookup succeeds, no record has the username, and the save succeeds; then exactly one record is appended: the new id, the submitted username, `hash(password, salt)` as the password field, and the default role. Every other response leaves the collection unchanged |
| UserStore.SignupKeepsUniqueness | passport-login/app.js:196-216 | signup keeps `_id`s unique, and keeps usernames unique if they were unique before |
| UserStore.AppendKeepsUnique | passport-login/app.js:216 | appending a record with an unused id keeps ids unique, and keeps usernames unique when its username is new |
| UserStore.Store.Save | passport-login/app.js:216-221 | the record is appended iff the store does not fail and its `_id` is unused; otherwise the collection is unchanged; the unique-id invariant is kept |
| UserStore.Store.Signup | passport-login/app.js:185-230 | the response and the new collection are those of `SignupSpec` on the old collection; the unique-id invariant is kept, and usernames stay unique if they were unique before |
| Flows.SignupThenLogin | passport-login/app.js:208-216 | after a successful signup, if compare accepts the password against its own digest, login with that password succeeds with the new record. A password the compare rejects fails with "Incorrect password". The new record's session token reads back as the same record |

## Left out

- Express setup, static files, views, Swag helpers, body parsing and `app.listen` (app.js:3-65, 318). These are framework plumbing.
- The Mongoose connection (app.js:37-44) and the `User` schema. `./models/user` is not part of this model. Id assignment is a parameter and the default role is a constant of the store.
- bcrypt internals: salt generation, the work factor `bcryptSalt = 10`, and the hash and compare algorithms (app.js:10-12, 103, 208-209). They are foreign, so the model proves nothing about them. In particular it does not prove that a digest differs from its plaintext or that hashing round-trips. `Flows.SignupThenLogin` takes the round-trip as a hypothesis.
- express-session, connect-flash, and the internals of `passport.authenticate` and `ensureLogin.ensureLoggedIn` (app.js:46-54, 169-172, 240-248, 294). These are library behaviour. What Passport does with a deserialize error or a null user is also theirs.
- `GET /logout` and the `/remember` and `/remember-password` routes (app.js:305-316). These are library calls and a stub.
- The race between `findOne` and `save` in concurrent signups, and the ordering of async callbacks. These are concurrency. Each request is modelled as one atomic step.
- Form fields that are missing rather than empty: `undefined === ""` is false in the source. The model's fields are always strings.
- An exception thrown by bcrypt inside the `.then` of signup, which `.catch` would pass to `next`. Only a failing `findOne` is modelled on that path.
- All `console.log` output (app.js:125-126, 158-159, 295-297).
- "Never both allows and redirects" in `checkRoles` is not a lemma. It holds by construction: the middleware's result is one `Decision` value.
