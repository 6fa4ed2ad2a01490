/** `useRole` (src/modules/roles/hooks/useRole.ts): the signed-in user's role, its permissions and the role flags. */
module RoleHook {
  import opened Wrappers
  import opened Roles

  /** The part of the signed-in user the role logic reads. */
  datatype User = User(id: string, role: Option<Role>)

  /** The user's role, `customer` when there is no user or the user has none. */
  function EffectiveRole(user: Option<User>): (r: Role)
    ensures user.Some? && user.value.role.Some? ==> r == user.value.role.value
    ensures user.None? || user.value.role.None? ==> r == Customer
  {
    if user.None? then Customer else user.value.role.GetOr(Customer)
  }

  /** What the hook returns, without the two closures (they are `HasPermission` and `HasAnyRole`). */
  datatype RoleState = RoleState(
    role: Role,
    permissions: RolePermissions,
    isCustomer: bool,
    isWaiter: bool,
    isChef: bool,
    isManager: bool,
    isAdmin: bool)

  function UseRole(user: Option<User>): (s: RoleState)
    ensures s.role == EffectiveRole(user) && s.permissions == PermissionsOf(s.role)
  {
    var role := EffectiveRole(user);
    RoleState(role, PermissionsOf(role),
              role == Customer, role == Waiter, role == Chef, role == Manager, role == Admin)
  }

  /** `hasPermission(permission)`. */
  function HasPermission(s: RoleState, permission: Permission): bool {
    Grants(s.permissions, permission)
  }

  /** `hasAnyRole(roles)`. */
  function HasAnyRole(s: RoleState, roles: seq<Role>): bool {
    s.role in roles
  }

  /** A permission check reads the table row of the user's role; a user without role is a customer. */
  lemma {:induction false} PermissionFollowsTable(user: Option<User>, permission: Permission)
    ensures HasPermission(UseRole(user), permission) == Grants(PermissionsOf(EffectiveRole(user)), permission)
    ensures user.None? ==>
              (HasPermission(UseRole(user), permission) <==>
               permission == CanViewOrders || permission == CanCreateOrders || permission == CanViewMenu)
  {
    if user.None? {
      CustomerPermissions(permission);
    }
  }

  /** `hasAnyRole` holds exactly when the role is listed; never for an empty list. */
  lemma {:induction false} AnyRoleMeansListed(user: Option<User>, roles: seq<Role>)
    ensures HasAnyRole(UseRole(user), roles) <==> exists i :: 0 <= i < |roles| && roles[i] == EffectiveRole(user)
    ensures roles == [] ==> !HasAnyRole(UseRole(user), roles)
  {
  }

  /** Exactly one role flag is set, the one of the user's role. */
  lemma {:induction false} ExactlyOneFlag(user: Option<User>)
    ensures var s := UseRole(user);
            (if s.isCustomer then 1 else 0) + (if s.isWaiter then 1 else 0) + (if s.isChef then 1 else 0) +
            (if s.isManager then 1 else 0) + (if s.isAdmin then 1 else 0) == 1
    ensures var s := UseRole(user);
            (s.isCustomer <==> s.role == Customer) && (s.isAdmin <==> s.role == Admin)
  {
  }
}
