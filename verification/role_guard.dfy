/** The decision order of `RoleGuard` (src/modules/roles/components/RoleGuard.tsx). */
module RoleGuard {
  import opened Wrappers
  import opened JsValues
  import opened Roles
  import opened RoleHook

  /** What the guard renders; the fallback is the node it was given. */
  datatype View = Loading | Redirect(path: string) | Fallback(node: JsValue) | Children

  /** The guard: loading first, then the signed-in check, then the role check; a falsy fallback redirects. */
  function Decide(loading: bool, user: Option<User>, allowedRoles: seq<Role>, fallback: JsValue): (v: View)
    ensures loading ==> v == Loading
    ensures !loading && user.None? ==> v == Redirect("/login")
    ensures v == Children <==> !loading && user.Some? && EffectiveRole(user) in allowedRoles
    ensures !loading && user.Some? && EffectiveRole(user) !in allowedRoles ==>
              v == (if Truthy(fallback) then Fallback(fallback) else Redirect("/dashboard"))
  {
    if loading then Loading
    else if user.None? then Redirect("/login")
    else
      var role := EffectiveRole(user);
      if role !in allowedRoles then (if Truthy(fallback) then Fallback(fallback) else Redirect("/dashboard"))
      else Children
  }

  /** The guard lets a signed-in user through exactly when `useRole().hasAnyRole(allowedRoles)` would. */
  lemma {:induction false} GuardAgreesWithHook(user: User, allowedRoles: seq<Role>, fallback: JsValue)
    ensures Decide(false, Some(user), allowedRoles, fallback) == Children <==> HasAnyRole(UseRole(Some(user)), allowedRoles)
  {
  }

  /** With no allowed roles nothing is ever rendered as children. */
  lemma {:induction false} EmptyAllowListNeverRenders(loading: bool, user: Option<User>, fallback: JsValue)
    ensures Decide(loading, user, [], fallback) != Children
  {
  }
}
