/**
 * `checkRoles(roles)`: a middleware factory. The middleware lets a request
 * through when it is authenticated and its user's role is one of `roles`;
 * otherwise it redirects an authenticated request home and an anonymous one
 * to the login page.
 */
module Roles {
  import opened Wrappers
  import opened Users

  const LoginPath := "/login"

  /** The middleware either calls `next()` or answers with a redirect, never both. */
  datatype Decision = Next | Redirect(path: string)

  /** `req.user` as Passport fills it: present exactly when `req.isAuthenticated()`. */
  type Requester = Option<User>

  predicate HasRoleIn(u: User, roles: seq<string>) {
    u.role.Some? && u.role.value in roles
  }

  function CheckRoles(roles: seq<string>): (guard: Requester -> Decision)
    ensures forall req :: guard(req).Next? <==> req.Some? && HasRoleIn(req.value, roles)
    ensures forall req :: guard(req).Redirect? ==>
      guard(req).path == if req.Some? then HomePath else LoginPath
  {
    (req: Requester) =>
      if req.Some? && HasRoleIn(req.value, roles) then Next
      else if req.Some? then Redirect(HomePath)
      else Redirect(LoginPath)
  }

  /** `checkAdminOrEditor`: the guard of the page for administrators and editors. */
  function CheckAdminOrEditor(req: Requester): (d: Decision)
    ensures d.Next? <==> req.Some? && (req.value.role == Some("ADMIN") || req.value.role == Some("EDITOR"))
  {
    CheckRoles(["ADMIN", "EDITOR"])(req)
  }

  /** `checkAdmin`: the guard of the page for administrators only. */
  function CheckAdmin(req: Requester): (d: Decision)
    ensures d.Next? <==> req.Some? && req.value.role == Some("ADMIN")
  {
    CheckRoles(["ADMIN"])(req)
  }

  /** Every role list sends an anonymous request to the login page. */
  lemma AnonymousGoesToLogin(roles: seq<string>)
    ensures CheckRoles(roles)(None) == Redirect(LoginPath)
  {
  }

  /** Allowing more roles never turns an allowed request away. */
  lemma CheckRolesMonotone(fewer: seq<string>, more: seq<string>, req: Requester)
    requires forall r | r in fewer :: r in more
    requires CheckRoles(fewer)(req) == Next
    ensures CheckRoles(more)(req) == Next
  {
  }

  /** Whatever `checkAdmin` lets through, `checkAdminOrEditor` lets through too. */
  lemma AdminPageImpliesEditorPage(req: Requester)
    requires CheckAdmin(req) == Next
    ensures CheckAdminOrEditor(req) == Next
  {
    CheckRolesMonotone(["ADMIN"], ["ADMIN", "EDITOR"], req);
  }

  /** An editor is sent home by `checkAdmin` and let through by `checkAdminOrEditor`. */
  lemma EditorScenario(u: User)
    requires u.role == Some("EDITOR")
    ensures CheckAdmin(Some(u)) == Redirect(HomePath)
    ensures CheckAdminOrEditor(Some(u)) == Next
  {
  }

  /** An anonymous request is sent to the login page by both guards. */
  lemma AnonymousScenario()
    ensures CheckAdmin(None) == Redirect(LoginPath)
    ensures CheckAdminOrEditor(None) == Redirect(LoginPath)
  {
  }
}
