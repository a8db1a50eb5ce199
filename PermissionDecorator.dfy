/** AuthPermissionServiceDecorator: the permission service behind permission checks and audit. */
module PermissionDecorators {
  import opened Common
  import opened Model
  import opened Store
  import opened Session
  import opened Audit
  import opened RoleServices
  import opened PermissionServices
  import opened Auth
  import opened Enforcement

  class AuthPermissionServiceDecorator {
    const delegate: PermissionService
    const auth: AuthService
    /** The plain role service the decorator asks for the role's code. */
    const roles: RoleService

    constructor (delegate: PermissionService, auth: AuthService, roles: RoleService)
      ensures this.delegate == delegate && this.auth == auth && this.roles == roles
    {
      this.delegate := delegate;
      this.auth := auth;
      this.roles := roles;
    }

    /** All three collaborators share one directory; the bound user came from it. */
    predicate Valid()
      reads delegate.dir, auth.session
    {
      delegate.dir == auth.dir && roles.dir == auth.dir && auth.Wired() && delegate.dir.Valid()
      && BoundHasId(auth.session.current)
    }

    method CreatePermission(code: Option<string>, description: Option<string>) returns (r: Result<()>)
      requires Valid()
      modifies delegate.dir, auth.audit
      ensures Valid()
      ensures var t := old(delegate.dir.State());
        var o := Enforce(t, auth.session.current, PermissionCreate, CreatePermissionSpec(t, code, description),
                         "CREATE_PERMISSION", code, "创建权限成功", code, "创建权限失败: ");
        delegate.dir.State() == o.tables && r == o.result && auth.audit.events == old(auth.audit.events) + o.events
    {
      ghost var step := CreatePermissionSpec(delegate.dir.State(), code, description);
      var check := auth.CheckPermission(PermissionCreate);
      if check.Err? {
        return Err(check.error);
      }
      assert auth.audit.events == old(auth.audit.events);
      r := delegate.CreatePermission(code, description);
      assert Step(delegate.dir.State(), r) == step;
      ghost var after := delegate.dir.State();
      ghost var logged := auth.audit.events;
      auth.audit.LogOutcome(r, "CREATE_PERMISSION", code, "创建权限成功", code, "创建权限失败: ");
      assert delegate.dir.State() == after;
      assert auth.audit.events == logged + [OutcomeEvent(auth.session.current, r, "CREATE_PERMISSION", code, "创建权限成功", code, "创建权限失败: ")];
      assert Valid();
    }

    method DeletePermission(permissionId: int) returns (r: Result<()>)
      requires Valid()
      modifies delegate.dir, auth.audit
      ensures Valid()
      ensures var t := old(delegate.dir.State());
        var o := Enforce(t, auth.session.current, PermissionDelete, DeletePermissionSpec(t, permissionId),
                         "DELETE_PERMISSION", PermissionCodeOf(t, permissionId), "删除权限成功",
                         Some(IntToString(permissionId)), "删除权限失败: ");
        delegate.dir.State() == o.tables && r == o.result && auth.audit.events == old(auth.audit.events) + o.events
    {
      var check := auth.CheckPermission(PermissionDelete);
      if check.Err? {
        return Err(check.error);
      }
      assert auth.audit.events == old(auth.audit.events);
      var target: Option<string> := None;
      var permission := delegate.GetPermissionById(permissionId);
      if permission.Ok? {
        r := delegate.DeletePermission(permissionId);
        target := Some(permission.value.code);
      } else {
        r := Err(permission.error);
      }
      ghost var after := delegate.dir.State();
      ghost var logged := auth.audit.events;
      auth.audit.LogOutcome(r, "DELETE_PERMISSION", target, "删除权限成功", Some(IntToString(permissionId)), "删除权限失败: ");
      assert delegate.dir.State() == after;
      assert auth.audit.events == logged + [OutcomeEvent(auth.session.current, r, "DELETE_PERMISSION", target, "删除权限成功", Some(IntToString(permissionId)), "删除权限失败: ")];
      assert Valid();
    }

    method ListPermissions() returns (r: Result<seq<Permission>>)
      requires Valid()
      modifies auth.audit
      ensures var c := CheckPermissionSpec(delegate.dir.State(), auth.session.current, PermissionList);
        && auth.audit.events == old(auth.audit.events) + c.events
        && (r.Err? <==> c.result.Err?)
        && (r.Err? ==> r.error == c.result.error)
        && (r.Ok? ==> forall p :: p in r.value <==> p in delegate.dir.permissions.Values)
        && (r.Ok? ==> forall i, j :: 0 <= i < j < |r.value| ==> r.value[i].id < r.value[j].id)
    {
      var check := auth.CheckPermission(PermissionList);
      if check.Err? {
        return Err(check.error);
      }
      var permissions := delegate.ListPermissions();
      r := Ok(permissions);
    }

    method GetPermissionById(permissionId: int) returns (r: Result<Permission>)
      requires Valid()
      modifies auth.audit
      ensures var o := Guarded(delegate.dir.State(), auth.session.current, PermissionList,
                               GetPermissionByIdSpec(delegate.dir.State(), permissionId));
        r == o.result && auth.audit.events == old(auth.audit.events) + o.events
    {
      var check := auth.CheckPermission(PermissionList);
      if check.Err? {
        return Err(check.error);
      }
      r := delegate.GetPermissionById(permissionId);
    }

    method GetPermissionByCode(code: string) returns (r: Result<Permission>)
      requires Valid()
      modifies auth.audit
      ensures var o := Guarded(delegate.dir.State(), auth.session.current, PermissionList,
                               GetPermissionByCodeSpec(delegate.dir.State(), code));
        r == o.result && auth.audit.events == old(auth.audit.events) + o.events
    {
      var check := auth.CheckPermission(PermissionList);
      if check.Err? {
        return Err(check.error);
      }
      r := delegate.GetPermissionByCode(code);
    }

    method AssignPermissionToRole(roleId: int, permissionId: int) returns (r: Result<()>)
      requires Valid()
      modifies delegate.dir, auth.audit
      ensures Valid()
      ensures var t := old(delegate.dir.State());
        var o := Enforce(t, auth.session.current, PermissionAssign, AssignPermissionSpec(t, roleId, permissionId),
                         "ASSIGN_PERMISSION", RoleCodeOf(t, roleId),
                         Bracketed("为角色分配权限 ", PermissionCodeOf(t, permissionId), " 成功"),
                         Some(IntToString(roleId)), "分配权限失败: ");
        delegate.dir.State() == o.tables && r == o.result && auth.audit.events == old(auth.audit.events) + o.events
    {
      var check := auth.CheckPermission(PermissionAssign);
      if check.Err? {
        return Err(check.error);
      }
      assert auth.audit.events == old(auth.audit.events);
      var target: Option<string> := None;
      var message := "";
      var role := roles.GetRoleById(roleId);
      if role.Ok? {
        var permission := delegate.GetPermissionById(permissionId);
        if permission.Ok? {
          r := delegate.AssignPermissionToRole(roleId, permissionId);
          target := Some(role.value.code);
          message := Bracketed("为角色分配权限 ", Some(permission.value.code), " 成功");
        } else {
          r := Err(permission.error);
        }
      } else {
        r := Err(role.error);
      }
      ghost var after := delegate.dir.State();
      ghost var logged := auth.audit.events;
      auth.audit.LogOutcome(r, "ASSIGN_PERMISSION", target, message, Some(IntToString(roleId)), "分配权限失败: ");
      assert delegate.dir.State() == after;
      assert auth.audit.events == logged + [OutcomeEvent(auth.session.current, r, "ASSIGN_PERMISSION", target, message, Some(IntToString(roleId)), "分配权限失败: ")];
      assert Valid();
    }

    method RemovePermissionFromRole(roleId: int, permissionId: int) returns (r: Result<()>)
      requires Valid()
      modifies delegate.dir, auth.audit
      ensures Valid()
      ensures var t := old(delegate.dir.State());
        var o := Enforce(t, auth.session.current, PermissionRevoke, RemovePermissionSpec(t, roleId, permissionId),
                         "REMOVE_PERMISSION", RoleCodeOf(t, roleId),
                         Bracketed("移除角色权限 ", PermissionCodeOf(t, permissionId), " 成功"),
                         Some(IntToString(roleId)), "移除权限失败: ");
        delegate.dir.State() == o.tables && r == o.result && auth.audit.events == old(auth.audit.events) + o.events
    {
      var check := auth.CheckPermission(PermissionRevoke);
      if check.Err? {
        return Err(check.error);
      }
      assert auth.audit.events == old(auth.audit.events);
      var target: Option<string> := None;
      var message := "";
      var role := roles.GetRoleById(roleId);
      if role.Ok? {
        var permission := delegate.GetPermissionById(permissionId);
        if permission.Ok? {
          r := delegate.RemovePermissionFromRole(roleId, permissionId);
          target := Some(role.value.code);
          message := Bracketed("移除角色权限 ", Some(permission.value.code), " 成功");
        } else {
          r := Err(permission.error);
        }
      } else {
        r := Err(role.error);
      }
      ghost var after := delegate.dir.State();
      ghost var logged := auth.audit.events;
      auth.audit.LogOutcome(r, "REMOVE_PERMISSION", target, message, Some(IntToString(roleId)), "移除权限失败: ");
      assert delegate.dir.State() == after;
      assert auth.audit.events == logged + [OutcomeEvent(auth.session.current, r, "REMOVE_PERMISSION", target, message, Some(IntToString(roleId)), "移除权限失败: ")];
      assert Valid();
    }

    method GetRolePermissions(roleId: int) returns (r: Result<set<Permission>>)
      requires Valid()
      modifies auth.audit
      ensures var o := Guarded(delegate.dir.State(), auth.session.current, PermissionList,
                               GetRolePermissionsSpec(delegate.dir.State(), roleId));
        r == o.result && auth.audit.events == old(auth.audit.events) + o.events
    {
      var check := auth.CheckPermission(PermissionList);
      if check.Err? {
        return Err(check.error);
      }
      r := delegate.GetRolePermissions(roleId);
    }
  }
}
