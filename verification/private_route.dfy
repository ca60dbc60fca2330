/**
 * The guard around protected pages: redirect to the entry page when the user
 * is not signed in, refuse when a required realm role is missing, render the
 * page otherwise. The identity provider's answers are parameters.
 */
module PrivateRoute {
  import opened Wrappers

  /** What the guard shows. */
  datatype RouteOutcome = Redirect(to: string) | AccessDenied | RenderChildren

  const EntryPath: string := "/"

  /** A role is falsy when it is absent or the empty string. */
  predicate Falsy(role: Option<string>) {
    role.None? || role.value == ""
  }

  /** The guard's decision. */
  function Decide(authenticated: bool, role: Option<string>, hasRealmRole: string -> bool): (r: RouteOutcome)
    ensures r.Redirect? <==> !authenticated
    ensures r.Redirect? ==> r.to == EntryPath
    ensures r == AccessDenied <==> authenticated && !Falsy(role) && !hasRealmRole(role.value)
    ensures r == RenderChildren <==> authenticated && (Falsy(role) || hasRealmRole(role.value))
  {
    if !authenticated then Redirect(EntryPath)
    else if role.Some? && role.value != "" && !hasRealmRole(role.value) then AccessDenied
    else RenderChildren
  }

  /**
   * The role check is not consulted when the user is signed out or no role
   * is required: any two answers of the identity provider give the same outcome.
   */
  lemma RoleCheckNotConsulted(authenticated: bool, role: Option<string>, h1: string -> bool, h2: string -> bool)
    requires !authenticated || Falsy(role)
    ensures Decide(authenticated, role, h1) == Decide(authenticated, role, h2)
  {
  }

  /** Granting more roles never turns an admitted user away. */
  lemma MoreRolesNeverDeny(role: Option<string>, h1: string -> bool, h2: string -> bool)
    requires forall s :: h1(s) ==> h2(s)
    ensures Decide(true, role, h1) == RenderChildren ==> Decide(true, role, h2) == RenderChildren
  {
  }
}
