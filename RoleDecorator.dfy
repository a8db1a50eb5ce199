/** AuthRoleServiceDecorator: the role service behind permission checks and audit. */
module RoleDecorators {
  import opened Common
  import opened Model
  import opened Store
  import opened Session
  import opened Audit
  import opened UserServices
  import opened RoleServices
  import opened Auth
  import opened Enforcement

  class AuthRoleServiceDecorator {
    const delegate: RoleService
    const auth: AuthService
    /** The plain user service the decorator asks for the user's name. */
    const users: UserService

    constructor (delegate: RoleService, auth: AuthService, users: UserService)
      ensures this.delegate == delegate && this.auth == auth && this.users == users
    {
      this.delegate := delegate;
      this.auth := auth;
      this.users := users;
    }

    /** All three collaborators share one directory; the bound user came from it. */
    predicate Valid()
      reads delegate.dir, auth.session
    {
      delegate.dir == auth.dir && users.dir == auth.dir && auth.Wired() && delegate.dir.Valid()
      && BoundHasId(auth.session.current)
    }

    method CreateRole(code: Option<string>, name: Option<string>, description: Option<string>) returns (r: Result<()>)
      requires Valid()
      modifies delegate.dir, auth.audit
      ensures Valid()
      ensures var t := old(delegate.dir.State());
        var o := Enforce(t, auth.session.current, RoleCreate, CreateRoleSpec(t, code, name, description),
                         "CREATE_ROLE", code, "创建角色成功", code, "创建角色失败: ");
        delegate.dir.State() == o.tables && r == o.result && auth.audit.events == old(auth.audit.events) + o.events
    {
      ghost var step := CreateRoleSpec(delegate.dir.State(), code, name, description);
      var check := auth.CheckPermission(RoleCreate);
      if check.Err? {
        return Err(check.error);
      }
      assert auth.audit.events == old(auth.audit.events);
      r := delegate.CreateRole(code, name, description);
      assert Step(delegate.dir.State(), r) == step;
      ghost var after := delegate.dir.State();
      ghost var logged := auth.audit.events;
      auth.audit.LogOutcome(r, "CREATE_ROLE", code, "创建角色成功", code, "创建角色失败: ");
      assert delegate.dir.State() == after;
      assert auth.audit.events == logged + [OutcomeEvent(auth.session.current, r, "CREATE_ROLE", code, "创建角色成功", code, "创建角色失败: ")];
      assert Valid();
    }

    method DeleteRole(roleId: int) returns (r: Result<()>)
      requires Valid()
      modifies delegate.dir, auth.audit
      ensures Valid()
      ensures var t := old(delegate.dir.State());
        var o := Enforce(t, auth.session.current, RoleDelete, DeleteRoleSpec(t, roleId),
                         "DELETE_ROLE", RoleCodeOf(t, roleId), "删除角色成功", Some(IntToString(roleId)), "删除角色失败: ");
        delegate.dir.State() == o.tables && r == o.result && auth.audit.events == old(auth.audit.events) + o.events
    {
      var check := auth.CheckPermission(RoleDelete);
      if check.Err? {
        return Err(check.error);
      }
      assert auth.audit.events == old(auth.audit.events);
      var target: Option<string> := None;
      var role := delegate.GetRoleById(roleId);
      if role.Ok? {
        r := delegate.DeleteRole(roleId);
        target := Some(role.value.code);
      } else {
        r := Err(role.error);
      }
      ghost var after := delegate.dir.State();
      ghost var logged := auth.audit.events;
      auth.audit.LogOutcome(r, "DELETE_ROLE", target, "删除角色成功", Some(IntToString(roleId)), "删除角色失败: ");
      assert delegate.dir.State() == after;
      assert auth.audit.events == logged + [OutcomeEvent(auth.session.current, r, "DELETE_ROLE", target, "删除角色成功", Some(IntToString(roleId)), "删除角色失败: ")];
      assert Valid();
    }

    method ListRoles() returns (r: Result<seq<Role>>)
      requires Valid()
      modifies auth.audit
      ensures var c := CheckPermissionSpec(delegate.dir.State(), auth.session.current, RoleList);
        && auth.audit.events == old(auth.audit.events) + c.events
        && (r.Err? <==> c.result.Err?)
        && (r.Err? ==> r.error == c.result.error)
        && (r.Ok? ==> forall role :: role in r.value <==> role in delegate.dir.roles.Values)
        && (r.Ok? ==> forall i, j :: 0 <= i < j < |r.value| ==> r.value[i].id < r.value[j].id)
    {
      var check := auth.CheckPermission(RoleList);
      if check.Err? {
        return Err(check.error);
      }
      var roles := delegate.ListRoles();
      r := Ok(roles);
    }

    method GetRoleById(roleId: int) returns (r: Result<Role>)
      requires Valid()
      modifies auth.audit
      ensures var o := Guarded(delegate.dir.State(), auth.session.current, RoleList, GetRoleByIdSpec(delegate.dir.State(), roleId));
        r == o.result && auth.audit.events == old(auth.audit.events) + o.events
    {
      var check := auth.CheckPermission(RoleList);
      if check.Err? {
        return Err(check.error);
      }
      r := delegate.GetRoleById(roleId);
    }

    method GetRoleByCode(code: string) returns (r: Result<Role>)
      requires Valid()
      modifies auth.audit
      ensures var o := Guarded(delegate.dir.State(), auth.session.current, RoleList, GetRoleByCodeSpec(delegate.dir.State(), code));
        r == o.result && auth.audit.events == old(auth.audit.events) + o.events
    {
      var check := auth.CheckPermission(RoleList);
      if check.Err? {
        return Err(check.error);
      }
      r := delegate.GetRoleByCode(code);
    }

    method AssignRoleToUser(userId: int, roleId: int) returns (r: Result<()>)
      requires Valid()
      modifies delegate.dir, auth.audit
      ensures Valid()
      ensures var t := old(delegate.dir.State());
        var o := Enforce(t, auth.session.current, RoleAssign, AssignRoleSpec(t, userId, roleId),
                         "ASSIGN_ROLE", UsernameOf(t, userId), Bracketed("为用户分配角色 ", RoleCodeOf(t, roleId), " 成功"),
                         Some(IntToString(userId)), "分配角色失败: ");
        delegate.dir.State() == o.tables && r == o.result && auth.audit.events == old(auth.audit.events) + o.events
    {
      var check := auth.CheckPermission(RoleAssign);
      if check.Err? {
        return Err(check.error);
      }
      assert auth.audit.events == old(auth.audit.events);
      var target: Option<string> := None;
      var message := "";
      var user := users.GetUserById(userId);
      if user.Ok? {
        var role := delegate.GetRoleById(roleId);
        if role.Ok? {
          r := delegate.AssignRoleToUser(userId, roleId);
          target := Some(user.value.username);
          message := Bracketed("为用户分配角色 ", Some(role.value.code), " 成功");
        } else {
          r := Err(role.error);
        }
      } else {
        r := Err(user.error);
      }
      ghost var after := delegate.dir.State();
      ghost var logged := auth.audit.events;
      auth.audit.LogOutcome(r, "ASSIGN_ROLE", target, message, Some(IntToString(userId)), "分配角色失败: ");
      assert delegate.dir.State() == after;
      assert auth.audit.events == logged + [OutcomeEvent(auth.session.current, r, "ASSIGN_ROLE", target, message, Some(IntToString(userId)), "分配角色失败: ")];
      assert Valid();
    }

    method RemoveRoleFromUser(userId: int, roleId: int) returns (r: Result<()>)
      requires Valid()
      modifies delegate.dir, auth.audit
      ensures Valid()
      ensures var t := old(delegate.dir.State());
        var o := Enforce(t, auth.session.current, RoleRevoke, RemoveRoleSpec(t, userId, roleId),
                         "REMOVE_ROLE", UsernameOf(t, userId), Bracketed("移除用户角色 ", RoleCodeOf(t, roleId), " 成功"),
                         Some(IntToString(userId)), "移除角色失败: ");
        delegate.dir.State() == o.tables && r == o.result && auth.audit.events == old(auth.audit.events) + o.events
    {
      var check := auth.CheckPermission(RoleRevoke);
      if check.Err? {
        return Err(check.error);
      }
      assert auth.audit.events == old(auth.audit.events);
      var target: Option<string> := None;
      var message := "";
      var user := users.GetUserById(userId);
      if user.Ok? {
        var role := delegate.GetRoleById(roleId);
        if role.Ok? {
          r := delegate.RemoveRoleFromUser(userId, roleId);
          target := Some(user.value.username);
          message := Bracketed("移除用户角色 ", Some(role.value.code), " 成功");
        } else {
          r := Err(role.error);
        }
      } else {
        r := Err(user.error);
      }
      ghost var after := delegate.dir.State();
      ghost var logged := auth.audit.events;
      auth.audit.LogOutcome(r, "REMOVE_ROLE", target, message, Some(IntToString(userId)), "移除角色失败: ");
      assert delegate.dir.State() == after;
      assert auth.audit.events == logged + [OutcomeEvent(auth.session.current, r, "REMOVE_ROLE", target, message, Some(IntToString(userId)), "移除角色失败: ")];
      assert Valid();
    }

    method GetUserRoles(userId: int) returns (r: Result<set<Role>>)
      requires Valid()
      modifies auth.audit
      ensures var o := Guarded(delegate.dir.State(), auth.session.current, RoleList, GetUserRolesSpec(delegate.dir.State(), userId));
        r == o.result && auth.audit.events == old(auth.audit.events) + o.events
    {
      var check := auth.CheckPermission(RoleList);
      if check.Err? {
        return Err(check.error);
      }
      r := delegate.GetUserRoles(userId);
    }
  }
}
