/**
 * The `RoleGuard` component of `components/RoleGuard.tsx`: it renders its
 * children only when the current role is among the allowed ones and holds the
 * required capability, and the fallback otherwise.
 */
module RoleGuard {
  import opened Wrappers
  import opened Permissions
  import opened UsePermissions
  import Lists

  /** What the guard renders: a node or nothing, or a render that throws. */
  datatype Rendered<N> = Shows(node: Option<N>) | Throws

  /** `allowedRoles.includes(userRole)`: the role string equals one of the listed roles' values. */
  predicate RoleListed(allowedRoles: seq<UserRole>, userRole: string)
  {
    userRole in Lists.Map(allowedRoles, RoleValue)
  }

  /** A role string is listed exactly when it is the value of a listed role. */
  lemma RoleListedIff(allowedRoles: seq<UserRole>, userRole: string)
    ensures RoleListed(allowedRoles, userRole) <==>
            ParseRole(userRole).Some? && ParseRole(userRole).value in allowedRoles
  {
    var values := Lists.Map(allowedRoles, RoleValue);
    if RoleListed(allowedRoles, userRole) {
      var i :| 0 <= i < |values| && values[i] == userRole;
      ParseRoleValue(allowedRoles[i]);
    }
    if ParseRole(userRole).Some? && ParseRole(userRole).value in allowedRoles {
      var i :| 0 <= i < |allowedRoles| && allowedRoles[i] == ParseRole(userRole).value;
      assert values[i] == userRole;
    }
  }

  /**
   * `<RoleGuard allowedRoles requiredPermission fallback>children</RoleGuard>`
   * for the role `role` the hook reads; `fallback` defaults to nothing.
   */
  function Guard<N>(role: Option<string>, children: N, allowedRoles: Option<seq<UserRole>>,
                    requiredPermission: Option<Permission>, fallback: Option<N> := None): (r: Rendered<N>)
    ensures allowedRoles.Some? && !RoleListed(allowedRoles.value, UserRoleOf(role)) ==> r == Shows(fallback)
    ensures allowedRoles == Some([]) ==> r == Shows(fallback)
    ensures (allowedRoles.None? || RoleListed(allowedRoles.value, UserRoleOf(role))) ==>
              (requiredPermission.None? ==> r == Shows(Some(children))) &&
              (requiredPermission.Some? ==>
                 match HookHasPermission(role, requiredPermission.value)
                 case TypeError => r == Throws
                 case Undefined => r == Shows(fallback)
                 case Flag(held) => r == if held then Shows(Some(children)) else Shows(fallback))
  {
    var userRole := UserRoleOf(role);
    if allowedRoles.Some? && !RoleListed(allowedRoles.value, userRole) then
      Shows(fallback)
    else if requiredPermission.Some? then
      match HookHasPermission(role, requiredPermission.value)
      case TypeError => Throws
      case Undefined => Shows(fallback)
      case Flag(held) => if !held then Shows(fallback) else Shows(Some(children))
    else
      Shows(Some(children))
  }

  /**
   * The children are shown exactly when both checks pass (a listed role, and
   * the capability when one is required); with neither prop the children
   * always show.
   */
  lemma ChildrenIffChecksPass<N>(role: Option<string>, children: N, allowedRoles: Option<seq<UserRole>>,
                                 requiredPermission: Option<Permission>)
    ensures Guard(role, children, allowedRoles, requiredPermission) == Shows(Some(children)) <==>
            (allowedRoles.None? || RoleListed(allowedRoles.value, UserRoleOf(role))) &&
            (requiredPermission.None? || HookHasPermission(role, requiredPermission.value) == Flag(true))
    ensures Guard(role, children, None, None) == Shows(Some(children))
  {
  }

  /** Without a fallback, a refused render shows nothing. */
  lemma FallbackDefaultsToNothing<N>(role: Option<string>, children: N, allowedRoles: Option<seq<UserRole>>,
                                     requiredPermission: Option<Permission>)
    ensures Guard(role, children, allowedRoles, requiredPermission) != Shows(Some(children)) ==>
            Guard(role, children, allowedRoles, requiredPermission) in {Shows(None), Throws}
  {
  }

  /** Guarding by role with a listed role and no capability shows the children whatever the fallback. */
  lemma ListedRoleShowsChildren<N>(role: Option<string>, children: N, allowedRoles: seq<UserRole>, fallback: Option<N>)
    requires ParseRole(UserRoleOf(role)).Some? && ParseRole(UserRoleOf(role)).value in allowedRoles
    ensures Guard(role, children, Some(allowedRoles), None, fallback) == Shows(Some(children))
  {
    RoleListedIff(allowedRoles, UserRoleOf(role));
  }

  /**
   * A role named like an `Object.prototype` member, unrestricted by role,
   * gets the fallback when a capability is required: the check answers
   * `undefined`, which `!` turns into a refusal, and nothing throws.
   */
  lemma InheritedNameGetsFallback<N>(key: string, children: N, p: Permission, fallback: Option<N>)
    requires key in ObjectPrototypeKeys
    ensures Guard(Some(key), children, None, Some(p), fallback) == Shows(fallback)
  {
    InheritedNameAnswersUndefined(key, p);
  }
}
