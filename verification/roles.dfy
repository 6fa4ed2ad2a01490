/** The role → permission table (src/modules/roles/types.ts). */
module Roles {

  datatype Role = Customer | Waiter | Chef | Manager | Admin

  datatype Permission =
    | CanViewOrders
    | CanCreateOrders
    | CanUpdateOrderStatus
    | CanViewMenu
    | CanManageMenu
    | CanViewTables
    | CanManageTables
    | CanViewAnalytics
    | CanManageUsers

  datatype RolePermissions = RolePermissions(
    canViewOrders: bool,
    canCreateOrders: bool,
    canUpdateOrderStatus: bool,
    canViewMenu: bool,
    canManageMenu: bool,
    canViewTables: bool,
    canManageTables: bool,
    canViewAnalytics: bool,
    canManageUsers: bool)

  /** `ROLE_PERMISSIONS[role]`. */
  function PermissionsOf(role: Role): RolePermissions {
    match role
    case Customer => RolePermissions(true, true, false, true, false, false, false, false, false)
    case Waiter => RolePermissions(true, true, true, true, false, true, false, false, false)
    case Chef => RolePermissions(true, false, true, true, false, false, false, false, false)
    case Manager => RolePermissions(true, true, true, true, true, true, true, true, true)
    case Admin => RolePermissions(true, true, true, true, true, true, true, true, true)
  }

  /** `permissions[permission]`. */
  function Grants(p: RolePermissions, permission: Permission): bool {
    match permission
    case CanViewOrders => p.canViewOrders
    case CanCreateOrders => p.canCreateOrders
    case CanUpdateOrderStatus => p.canUpdateOrderStatus
    case CanViewMenu => p.canViewMenu
    case CanManageMenu => p.canManageMenu
    case CanViewTables => p.canViewTables
    case CanManageTables => p.canManageTables
    case CanViewAnalytics => p.canViewAnalytics
    case CanManageUsers => p.canManageUsers
  }

  /** Every permission of `a` is one of `b`. */
  predicate Subsumed(a: Role, b: Role) {
    forall p: Permission :: Grants(PermissionsOf(a), p) ==> Grants(PermissionsOf(b), p)
  }

  /** Managers and admins hold every permission. */
  lemma {:induction false} ManagersHoldEverything(p: Permission)
    ensures Grants(PermissionsOf(Manager), p) && Grants(PermissionsOf(Admin), p)
  {
  }

  /** A customer may view and create orders and view the menu, and nothing else. */
  lemma {:induction false} CustomerPermissions(p: Permission)
    ensures Grants(PermissionsOf(Customer), p) <==> p == CanViewOrders || p == CanCreateOrders || p == CanViewMenu
  {
  }

  /** Every role may view orders and the menu. */
  lemma {:induction false} EveryoneViews(r: Role)
    ensures Grants(PermissionsOf(r), CanViewOrders) && Grants(PermissionsOf(r), CanViewMenu)
  {
  }

  /** Managing the menu, tables and users and viewing analytics belong to managers and admins alone. */
  lemma {:induction false} ManagementIsReserved(r: Role, p: Permission)
    requires p == CanManageMenu || p == CanManageTables || p == CanViewAnalytics || p == CanManageUsers
    ensures Grants(PermissionsOf(r), p) <==> r == Manager || r == Admin
  {
  }

  /** The rows nest: customer and chef under waiter, waiter under manager, manager and admin alike; customer and chef are incomparable. */
  lemma {:induction false} PermissionsNest()
    ensures Subsumed(Customer, Waiter) && Subsumed(Chef, Waiter) && Subsumed(Waiter, Manager)
    ensures PermissionsOf(Manager) == PermissionsOf(Admin)
    ensures !Subsumed(Customer, Chef) && !Subsumed(Chef, Customer)
  {
    assert Grants(PermissionsOf(Customer), CanCreateOrders) && !Grants(PermissionsOf(Chef), CanCreateOrders);
    assert Grants(PermissionsOf(Chef), CanUpdateOrderStatus) && !Grants(PermissionsOf(Customer), CanUpdateOrderStatus);
  }
}
