/** AuthUserServiceDecorator: the user service behind permission checks and audit. */
module UserDecorators {
  import opened Common
  import opened Model
  import opened Store
  import opened Session
  import opened Audit
  import opened UserServices
  import opened Auth
  import opened Enforcement

  class AuthUserServiceDecorator {
    const delegate: UserService
    const auth: AuthService

    constructor (delegate: UserService, auth: AuthService)
      ensures this.delegate == delegate && this.auth == auth
    {
      this.delegate := delegate;
      this.auth := auth;
    }

    /** The delegate and the auth service share one directory; the bound user came from it. */
    predicate Valid()
      reads delegate.dir, auth.session
    {
      delegate.dir == auth.dir && auth.Wired() && delegate.dir.Valid() && BoundHasId(auth.session.current)
    }

    method CreateUser(username: Option<string>, password: Option<string>, salt: string) returns (r: Result<()>)
      requires Valid()
      modifies delegate.dir, auth.audit
      ensures Valid()
      ensures var t := old(delegate.dir.State());
        var o := Enforce(t, auth.session.current, UserCreate, CreateUserSpec(t, username, password, salt, delegate.hash),
                         "CREATE_USER", username, "创建用户成功", username, "创建用户失败: ");
        delegate.dir.State() == o.tables && r == o.result && auth.audit.events == old(auth.audit.events) + o.events
    {
      ghost var t := delegate.dir.State();
      ghost var step := CreateUserSpec(t, username, password, salt, delegate.hash);
      var check := auth.CheckPermission(UserCreate);
      if check.Err? {
        return Err(check.error);
      }
      assert auth.audit.events == old(auth.audit.events);
      r := delegate.CreateUser(username, password, salt);
      assert Step(delegate.dir.State(), r) == step;
      ghost var after := delegate.dir.State();
      ghost var logged := auth.audit.events;
      auth.audit.LogOutcome(r, "CREATE_USER", username, "创建用户成功", username, "创建用户失败: ");
      assert delegate.dir.State() == after;
      assert auth.audit.events == logged + [OutcomeEvent(auth.session.current, r, "CREATE_USER", username, "创建用户成功", username, "创建用户失败: ")];
      assert Valid();
    }

    method DeleteUser(userId: int) returns (r: Result<()>)
      requires Valid()
      modifies delegate.dir, auth.audit
      ensures Valid()
      ensures var t := old(delegate.dir.State());
        var o := Enforce(t, auth.session.current, UserDelete, DeleteUserSpec(t, userId),
                         "DELETE_USER", UsernameOf(t, userId), "删除用户成功", Some(IntToString(userId)), "删除用户失败: ");
        delegate.dir.State() == o.tables && r == o.result && auth.audit.events == old(auth.audit.events) + o.events
    {
      var check := auth.CheckPermission(UserDelete);
      if check.Err? {
        return Err(check.error);
      }
      assert auth.audit.events == old(auth.audit.events);
      var target: Option<string> := None;
      var user := delegate.GetUserById(userId);
      if user.Ok? {
        r := delegate.DeleteUser(userId);
        target := Some(user.value.username);
      } else {
        r := Err(user.error);
      }
      ghost var after := delegate.dir.State();
      ghost var logged := auth.audit.events;
      auth.audit.LogOutcome(r, "DELETE_USER", target, "删除用户成功", Some(IntToString(userId)), "删除用户失败: ");
      assert delegate.dir.State() == after;
      assert auth.audit.events == logged + [OutcomeEvent(auth.session.current, r, "DELETE_USER", target, "删除用户成功", Some(IntToString(userId)), "删除用户失败: ")];
      assert Valid();
    }

    method FreezeUser(userId: int) returns (r: Result<()>)
      requires Valid()
      modifies delegate.dir, auth.audit
      ensures Valid()
      ensures var t := old(delegate.dir.State());
        var o := Enforce(t, auth.session.current, UserFreeze, FreezeUserSpec(t, userId),
                         "FREEZE_USER", UsernameOf(t, userId), "冻结用户成功", Some(IntToString(userId)), "冻结用户失败: ");
        delegate.dir.State() == o.tables && r == o.result && auth.audit.events == old(auth.audit.events) + o.events
    {
      var check := auth.CheckPermission(UserFreeze);
      if check.Err? {
        return Err(check.error);
      }
      assert auth.audit.events == old(auth.audit.events);
      var target: Option<string> := None;
      var user := delegate.GetUserById(userId);
      if user.Ok? {
        r := delegate.FreezeUser(userId);
        target := Some(user.value.username);
      } else {
        r := Err(user.error);
      }
      ghost var after := delegate.dir.State();
      ghost var logged := auth.audit.events;
      auth.audit.LogOutcome(r, "FREEZE_USER", target, "冻结用户成功", Some(IntToString(userId)), "冻结用户失败: ");
      assert delegate.dir.State() == after;
      assert auth.audit.events == logged + [OutcomeEvent(auth.session.current, r, "FREEZE_USER", target, "冻结用户成功", Some(IntToString(userId)), "冻结用户失败: ")];
      assert Valid();
    }

    method UnfreezeUser(userId: int) returns (r: Result<()>)
      requires Valid()
      modifies delegate.dir, auth.audit
      ensures Valid()
      ensures var t := old(delegate.dir.State());
        var o := Enforce(t, auth.session.current, UserUnfreeze, UnfreezeUserSpec(t, userId),
                         "UNFREEZE_USER", UsernameOf(t, userId), "解冻用户成功", Some(IntToString(userId)), "解冻用户失败: ");
        delegate.dir.State() == o.tables && r == o.result && auth.audit.events == old(auth.audit.events) + o.events
    {
      var check := auth.CheckPermission(UserUnfreeze);
      if check.Err? {
        return Err(check.error);
      }
      assert auth.audit.events == old(auth.audit.events);
      var target: Option<string> := None;
      var user := delegate.GetUserById(userId);
      if user.Ok? {
        r := delegate.UnfreezeUser(userId);
        target := Some(user.value.username);
      } else {
        r := Err(user.error);
      }
      ghost var after := delegate.dir.State();
      ghost var logged := auth.audit.events;
      auth.audit.LogOutcome(r, "UNFREEZE_USER", target, "解冻用户成功", Some(IntToString(userId)), "解冻用户失败: ");
      assert delegate.dir.State() == after;
      assert auth.audit.events == logged + [OutcomeEvent(auth.session.current, r, "UNFREEZE_USER", target, "解冻用户成功", Some(IntToString(userId)), "解冻用户失败: ")];
      assert Valid();
    }

    method ListUsers() returns (r: Result<seq<User>>)
      requires Valid()
      modifies auth.audit
      ensures var c := CheckPermissionSpec(delegate.dir.State(), auth.session.current, UserList);
        && auth.audit.events == old(auth.audit.events) + c.events
        && (r.Err? <==> c.result.Err?)
        && (r.Err? ==> r.error == c.result.error)
        && (r.Ok? ==> forall u :: u in r.value <==> u in delegate.dir.users.Values)
        && (r.Ok? ==> forall i, j :: 0 <= i < j < |r.value| ==> r.value[i].id.Some? && r.value[j].id.Some? && r.value[i].id.value < r.value[j].id.value)
    {
      var check := auth.CheckPermission(UserList);
      if check.Err? {
        return Err(check.error);
      }
      var users := delegate.ListUsers();
      r := Ok(users);
    }

    method GetUserById(userId: int) returns (r: Result<User>)
      requires Valid()
      modifies auth.audit
      ensures var o := Guarded(delegate.dir.State(), auth.session.current, UserList, GetUserByIdSpec(delegate.dir.State(), userId));
        r == o.result && auth.audit.events == old(auth.audit.events) + o.events
    {
      var check := auth.CheckPermission(UserList);
      if check.Err? {
        return Err(check.error);
      }
      r := delegate.GetUserById(userId);
    }

    method GetUserByUsername(username: string) returns (r: Result<Option<User>>)
      requires Valid()
      modifies auth.audit
      ensures var o := Guarded(delegate.dir.State(), auth.session.current, UserList, Ok(UserNamed(delegate.dir.State(), username)));
        r == o.result && auth.audit.events == old(auth.audit.events) + o.events
    {
      var check := auth.CheckPermission(UserList);
      if check.Err? {
        return Err(check.error);
      }
      var user := delegate.GetUserByUsername(username);
      r := Ok(user);
    }
  }
}
