/**
 * The roles of `types/user.ts` and the fixed capability table of
 * `lib/permissions.ts`: what each role may do, and who may open a task.
 */
module Permissions {
  import opened Wrappers

  /** `UserRole`: the three roles the capability table knows. */
  datatype UserRole = Admin | User | Viewer

  /** The string value of each enum member. */
  function RoleValue(r: UserRole): string
  {
    match r
    case Admin => "admin"
    case User => "user"
    case Viewer => "viewer"
  }

  /** The role whose string value is `s`, if there is one: a key with a row in the table. */
  function ParseRole(s: string): (r: Option<UserRole>)
    ensures r.Some? ==> RoleValue(r.value) == s
  {
    if s == "admin" then Some(Admin)
    else if s == "user" then Some(User)
    else if s == "viewer" then Some(Viewer)
    else None
  }

  /** Every role's value reads back as that role, so the values are distinct. */
  lemma ParseRoleValue(r: UserRole)
    ensures ParseRole(RoleValue(r)) == Some(r)
  {
  }

  /** `keyof RolePermissions`: the five capabilities. */
  datatype Permission = CanCreate | CanEdit | CanDelete | CanViewAll | CanManageUsers

  /** `RolePermissions`: one flag per capability. */
  datatype RolePermissions = RolePermissions(
    canCreate: bool,
    canEdit: bool,
    canDelete: bool,
    canViewAll: bool,
    canManageUsers: bool)
  {
    /** `permissions[p]`. */
    function Get(p: Permission): bool
    {
      match p
      case CanCreate => canCreate
      case CanEdit => canEdit
      case CanDelete => canDelete
      case CanViewAll => canViewAll
      case CanManageUsers => canManageUsers
    }
  }

  /** `ROLE_PERMISSIONS[r]`: the row of the capability table for role `r`. */
  function RolePermissionsOf(r: UserRole): RolePermissions
  {
    match r
    case Admin => RolePermissions(true, true, true, true, true)
    case User => RolePermissions(true, true, true, false, false)
    case Viewer => RolePermissions(false, false, false, false, false)
  }

  /** `hasPermission(userRole, permission)`: the table lookup. */
  function HasPermission(r: UserRole, p: Permission): bool
  {
    RolePermissionsOf(r).Get(p)
  }

  /**
   * The names a plain object literal such as `ROLE_PERMISSIONS` inherits from
   * `Object.prototype`: indexing it by one of them finds a function, or for
   * `__proto__` the prototype object itself, even though it has no own key of
   * that name.
   */
  const ObjectPrototypeKeys: set<string> := {
    "constructor", "hasOwnProperty", "isPrototypeOf", "propertyIsEnumerable",
    "toLocaleString", "toString", "valueOf", "__proto__",
    "__defineGetter__", "__defineSetter__", "__lookupGetter__", "__lookupSetter__"}

  /** What `ROLE_PERMISSIONS[key]` finds for a role string that no type check has vetted. */
  datatype RowLookup = TableRow(row: RolePermissions) | InheritedMember | NoRow

  /**
   * `ROLE_PERMISSIONS[key]`: the row of the role whose value is `key`; an
   * inherited member for an `Object.prototype` name; `undefined` otherwise.
   */
  function LookupRole(key: string): (l: RowLookup)
    ensures l.TableRow? <==> ParseRole(key).Some?
    ensures l.TableRow? ==> l.row == RolePermissionsOf(ParseRole(key).value)
    ensures l.InheritedMember? <==> key in ObjectPrototypeKeys
    ensures l.NoRow? <==> ParseRole(key).None? && key !in ObjectPrototypeKeys
  {
    match ParseRole(key)
    case Some(r) => TableRow(RolePermissionsOf(r))
    case None => if key in ObjectPrototypeKeys then InheritedMember else NoRow
  }

  /**
   * What `hasPermission(userRole, permission)` does at run time: returns the
   * row's flag, returns `undefined` (reading a capability name off an
   * inherited function or the prototype finds nothing), or throws a
   * `TypeError` (reading it off `undefined`).
   */
  datatype Answer = Flag(held: bool) | Undefined | TypeError

  /**
   * `hasPermission(key, p)` for any string the caller's cast let through: the
   * flag of a table role, `undefined` for an `Object.prototype` name, a
   * `TypeError` for every other string.
   */
  function HasPermissionAt(key: string, p: Permission): (a: Answer)
    ensures a.Flag? <==> ParseRole(key).Some?
    ensures a.Flag? ==> a.held == HasPermission(ParseRole(key).value, p)
    ensures a.Undefined? <==> key in ObjectPrototypeKeys
    ensures a.TypeError? <==> LookupRole(key).NoRow?
  {
    match LookupRole(key)
    case TableRow(row) => Flag(row.Get(p))
    case InheritedMember => Undefined
    case NoRow => TypeError
  }

  /** The capabilities that change tasks. */
  predicate IsTaskWrite(p: Permission)
  {
    p == CanCreate || p == CanEdit || p == CanDelete
  }

  /**
   * What the table grants: an admin everything, a user exactly the task
   * writes, a viewer nothing.
   */
  lemma RoleTable(p: Permission)
    ensures HasPermission(Admin, p)
    ensures HasPermission(User, p) <==> IsTaskWrite(p)
    ensures !HasPermission(Viewer, p)
  {
  }

  /** How much a role may do: viewer below user below admin. */
  function Rank(r: UserRole): nat
  {
    match r
    case Viewer => 0
    case User => 1
    case Admin => 2
  }

  /** The rows are nested: a role holds every capability of every role below it. */
  lemma PermissionsNested(r: UserRole, s: UserRole, p: Permission)
    requires Rank(r) <= Rank(s)
    ensures HasPermission(r, p) ==> HasPermission(s, p)
  {
  }

  /**
   * `canUserAccessTask(userRole, taskUserId, currentUserId)`: an admin may
   * open every task, anyone else only their own.
   */
  function CanUserAccessTask(r: UserRole, taskUserId: string, currentUserId: string): (b: bool)
    ensures r == Admin ==> b
    ensures r != Admin ==> (b <==> taskUserId == currentUserId)
  {
    if r == Admin then true else taskUserId == currentUserId
  }

  /** Access grows with the role, as the capabilities do. */
  lemma AccessNested(r: UserRole, s: UserRole, taskUserId: string, currentUserId: string)
    requires Rank(r) <= Rank(s)
    ensures CanUserAccessTask(r, taskUserId, currentUserId) ==> CanUserAccessTask(s, taskUserId, currentUserId)
  {
  }

  /** Outside the admin role, access to a task goes together with the power to see all tasks. */
  lemma AccessMatchesViewAll(r: UserRole, taskUserId: string, currentUserId: string)
    ensures CanUserAccessTask(r, taskUserId, currentUserId) <==>
            HasPermission(r, CanViewAll) || taskUserId == currentUserId
  {
  }
}
