/**
 * The `usePermissions` hook of `hooks/usePermissions.ts`: it defaults the
 * signed-in user's role and derives the capability row and three role flags
 * from it.
 *
 * The hook reads `user` from the authentication context, whose value carries
 * `currentUser` and no `user`; the hook is modelled as written, on the value
 * `user?.role` it reads, so the wiring is the input `None`.
 */
module UsePermissions {
  import opened Wrappers
  import opened Text
  import opened Permissions

  /** `user?.role` as the hook reads it from the context: always absent there. */
  const AsWired: Option<string> := None

  /**
   * `(user?.role as UserRole) || UserRole.VIEWER`: the role string, or
   * `"viewer"` when it is absent or empty. The cast checks nothing, so any
   * other string (`"guest"` among them) passes through.
   */
  function UserRoleOf(role: Option<string>): (r: string)
    ensures r != ""
    ensures Truthy(role) ==> r == role.value
    ensures !Truthy(role) ==> r == RoleValue(Viewer)
  {
    if Truthy(role) then role.value else "viewer"
  }

  /** What the hook returns, without the `hasPermission` closure (see `HookHasPermission`). */
  datatype PermissionsView = PermissionsView(
    userRole: string,
    permissions: RowLookup,
    isAdmin: bool,
    isUser: bool,
    isViewer: bool)

  /**
   * `usePermissions()`: `permissions` is the table row of the role, an
   * inherited member for an `Object.prototype` name, and undefined for any
   * other role; each flag compares the role with one enum value.
   */
  function UsePermissions(role: Option<string>): (v: PermissionsView)
    ensures v.userRole == UserRoleOf(role)
    ensures v.permissions.TableRow? <==> ParseRole(v.userRole).Some?
    ensures v.permissions.TableRow? ==> v.permissions.row == RolePermissionsOf(ParseRole(v.userRole).value)
    ensures v.permissions.InheritedMember? <==> v.userRole in ObjectPrototypeKeys
    ensures v.isAdmin <==> ParseRole(v.userRole) == Some(Admin)
    ensures v.isUser <==> ParseRole(v.userRole) == Some(User)
    ensures v.isViewer <==> ParseRole(v.userRole) == Some(Viewer)
  {
    var userRole := UserRoleOf(role);
    PermissionsView(
      userRole := userRole,
      permissions := LookupRole(userRole),
      isAdmin := userRole == "admin",
      isUser := userRole == "user",
      isViewer := userRole == "viewer")
  }

  /**
   * The hook's `hasPermission(p)`, which calls the library's
   * `hasPermission(userRole, p)`: the flag for a table role, `undefined` for
   * an `Object.prototype` name, and a `TypeError` for any other role.
   */
  function HookHasPermission(role: Option<string>, p: Permission): (r: Answer)
    ensures r.Flag? <==> ParseRole(UserRoleOf(role)).Some?
    ensures r.Flag? ==> r.held == HasPermission(ParseRole(UserRoleOf(role)).value, p)
    ensures r.Undefined? <==> UserRoleOf(role) in ObjectPrototypeKeys
    ensures r.TypeError? <==> ParseRole(UserRoleOf(role)).None? && UserRoleOf(role) !in ObjectPrototypeKeys
  {
    HasPermissionAt(UserRoleOf(role), p)
  }

  /** The closure agrees with the `permissions` lookup the hook returns beside it. */
  lemma HookAgreesWithRow(role: Option<string>, p: Permission)
    ensures UsePermissions(role).permissions.NoRow? <==> HookHasPermission(role, p).TypeError?
    ensures UsePermissions(role).permissions.InheritedMember? <==> HookHasPermission(role, p).Undefined?
    ensures UsePermissions(role).permissions.TableRow? ==>
              HookHasPermission(role, p) == Flag(UsePermissions(role).permissions.row.Get(p))
  {
  }

  /**
   * Exactly one of `isAdmin`, `isUser` and `isViewer` holds when the role has
   * a row in the table; none holds otherwise.
   */
  lemma ExactlyOneFlag(role: Option<string>)
    ensures var v := UsePermissions(role);
            ParseRole(v.userRole).Some? <==>
            ((v.isAdmin && !v.isUser && !v.isViewer) ||
             (!v.isAdmin && v.isUser && !v.isViewer) ||
             (!v.isAdmin && !v.isUser && v.isViewer))
    ensures var v := UsePermissions(role);
            ParseRole(v.userRole).None? ==> !v.isAdmin && !v.isUser && !v.isViewer
  {
  }

  /** Without a role, or with an empty one, the hook acts as a viewer: it may not create, edit or delete. */
  lemma MissingRoleIsViewer(role: Option<string>, p: Permission)
    requires !Truthy(role)
    ensures UsePermissions(role).isViewer && !UsePermissions(role).isAdmin
    ensures HookHasPermission(role, p) == Flag(false)
  {
    RoleTable(p);
  }

  /** As wired, every user is a viewer, whatever the signed-in account's role. */
  lemma AsWiredIsViewer(p: Permission)
    ensures UsePermissions(AsWired).userRole == "viewer"
    ensures HookHasPermission(AsWired, p) == Flag(false)
  {
    MissingRoleIsViewer(AsWired, p);
  }

  /** A `"guest"` role has no row: no flag holds and the closure throws. */
  lemma GuestHasNoRow(p: Permission)
    ensures UsePermissions(Some("guest")).permissions.NoRow?
    ensures HookHasPermission(Some("guest"), p).TypeError?
    ensures !UsePermissions(Some("guest")).isAdmin && !UsePermissions(Some("guest")).isUser
            && !UsePermissions(Some("guest")).isViewer
  {
  }

  /**
   * A role named like an `Object.prototype` member (`"toString"`,
   * `"constructor"`, `"__proto__"`, …) finds an inherited member instead of a
   * row: no flag holds, and the closure answers `undefined` without throwing.
   */
  lemma InheritedNameAnswersUndefined(key: string, p: Permission)
    requires key in ObjectPrototypeKeys
    ensures UsePermissions(Some(key)).permissions.InheritedMember?
    ensures HookHasPermission(Some(key), p) == Undefined
    ensures !UsePermissions(Some(key)).isAdmin && !UsePermissions(Some(key)).isUser
            && !UsePermissions(Some(key)).isViewer
  {
  }
}
