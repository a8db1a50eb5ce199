/**
 * AuthServiceImpl: login, logout, the bound user, and the permission
 * checks over the effective permission set.
 */
module Auth {
  import opened Common
  import opened Model
  import opened Store
  import opened Session
  import opened Audit
  import opened UserServices

  /** What login decides: the user to bind, or the audit reason and the exception message. */
  datatype LoginDecision = Accepted(user: User) | Rejected(reason: string, message: string)
  {
    /** What login returns, or the AuthenticationException it throws. */
    function Outcome(): Result<User> {
      if Accepted? then Ok(user) else Err(AuthenticationError(message))
    }

    /** The one audit event login writes for this decision. */
    function Event(username: Option<string>): AuditEvent {
      if Accepted? then LoginSuccessEvent(username) else LoginFailEvent(username, reason)
    }
  }

  /** The message shared by an unknown name and a wrong password. */
  const BadCredentials := "用户名或密码错误"
  const AccountFrozen := "账户已被冻结，请联系管理员"

  /**
   * login's checks, in order: blank name, blank password, unknown name,
   * wrong password, frozen account.
   */
  ghost function Authenticate(t: Tables, username: Option<string>, password: Option<string>, hash: Hasher): (d: LoginDecision)
    ensures d.Accepted? ==>
      && username == Some(d.user.username) && UserNamed(t, d.user.username) == Some(d.user)
      && password.Some? && hash(password.value, d.user.salt) == d.user.passwordHash && !d.user.IsFrozen()
    ensures d.Rejected? && !IsBlank(username) && !IsBlank(password) ==>
      d.message == BadCredentials || d.message == AccountFrozen
  {
    if IsBlank(username) then Rejected("用户名为空", "用户名不能为空")
    else if IsBlank(password) then Rejected("密码为空", "密码不能为空")
    else
      match UserNamed(t, username.value)
      case None => Rejected("用户不存在", BadCredentials)
      case Some(u) =>
        if hash(password.value, u.salt) != u.passwordHash then Rejected("密码错误", BadCredentials)
        else if u.IsFrozen() then Rejected("账户已被冻结", AccountFrozen)
        else Accepted(u)
  }

  /**
   * A login is accepted exactly when both fields are non-blank, the name
   * belongs to a user, the password hashes to that user's hash and the
   * user is not frozen.
   */
  lemma AcceptedExactlyWhenCredentialsMatch(t: Tables, username: Option<string>, password: Option<string>, hash: Hasher)
    ensures Authenticate(t, username, password, hash).Accepted? <==>
      && !IsBlank(username) && !IsBlank(password) && UserNamed(t, username.value).Some?
      && hash(password.value, UserNamed(t, username.value).value.salt) == UserNamed(t, username.value).value.passwordHash
      && !UserNamed(t, username.value).value.IsFrozen()
  {
  }

  /** Blank input is refused before any lookup, each blank field with its own reason and message. */
  lemma BlankCredentialsRejected(t: Tables, username: Option<string>, password: Option<string>, hash: Hasher)
    ensures IsBlank(username) ==> Authenticate(t, username, password, hash) == Rejected("用户名为空", "用户名不能为空")
    ensures !IsBlank(username) && IsBlank(password) ==>
      Authenticate(t, username, password, hash) == Rejected("密码为空", "密码不能为空")
  {
  }

  /**
   * The right password lets in every account that is not frozen, whatever
   * its status column holds otherwise (a value other than 0 and 1 included).
   */
  lemma CorrectCredentialsAccepted(t: Tables, id: int, password: string, hash: Hasher)
    requires Wf(t) && id in t.users && !t.users[id].IsFrozen()
    requires !IsBlank(Some(t.users[id].username)) && !IsBlank(Some(password))
    requires hash(password, t.users[id].salt) == t.users[id].passwordHash
    ensures Authenticate(t, Some(t.users[id].username), Some(password), hash) == Accepted(t.users[id])
  {
    UserNamedIsUnique(t, id);
  }

  /**
   * An unknown name and a wrong password for a known name are told apart
   * only in the audit reason, never in the message the caller sees.
   */
  lemma CredentialErrorsAreGeneric(t: Tables, username: string, password: string, hash: Hasher)
    requires !IsBlank(Some(username)) && !IsBlank(Some(password))
    requires !UsernameTaken(t, username)
      || hash(password, UserNamed(t, username).value.salt) != UserNamed(t, username).value.passwordHash
    ensures Authenticate(t, Some(username), Some(password), hash).Rejected?
    ensures Authenticate(t, Some(username), Some(password), hash).message == BadCredentials
  {
  }

  /**
   * The password is checked before the status: a frozen account is reported
   * as frozen exactly when the password is right; a wrong password gets the
   * generic message.
   */
  lemma FrozenIsRevealedOnlyWithThePassword(t: Tables, id: int, password: string, hash: Hasher)
    requires Wf(t) && id in t.users && t.users[id].IsFrozen()
    requires !IsBlank(Some(t.users[id].username)) && !IsBlank(Some(password))
    ensures var d := Authenticate(t, Some(t.users[id].username), Some(password), hash);
      && d.Rejected?
      && (d.message == AccountFrozen <==> hash(password, t.users[id].salt) == t.users[id].passwordHash)
      && (d.message == BadCredentials <==> hash(password, t.users[id].salt) != t.users[id].passwordHash)
  {
    UserNamedIsUnique(t, id);
  }

  /** A freshly created account can log in with the password it was created with. */
  lemma CreatedUserCanLogIn(t: Tables, username: Option<string>, password: Option<string>, salt: string, hash: Hasher)
    requires Wf(t) && CreateUserSpec(t, username, password, salt, hash).result.Ok?
    ensures var t' := CreateUserSpec(t, username, password, salt, hash).tables;
      Authenticate(t', username, password, hash) == Accepted(t'.users[t.nextUserId])
  {
    CreateUserAddsOneNormalUser(t, username, password, salt, hash);
  }

  /** Freezing an account blocks its login; unfreezing it lets the same credentials in again. */
  lemma FreezeBlocksAndUnfreezeRestoresLogin(t: Tables, id: int, password: string, hash: Hasher)
    requires Wf(t) && id in t.users && t.users[id].IsNormal()
    requires !IsBlank(Some(t.users[id].username)) && !IsBlank(Some(password))
    requires hash(password, t.users[id].salt) == t.users[id].passwordHash
    ensures Authenticate(t, Some(t.users[id].username), Some(password), hash) == Accepted(t.users[id])
    ensures var frozen := FreezeUserSpec(t, id).tables;
      Authenticate(frozen, Some(t.users[id].username), Some(password), hash) == Rejected("账户已被冻结", AccountFrozen)
    ensures var frozen := FreezeUserSpec(t, id).tables;
      Authenticate(UnfreezeUserSpec(frozen, id).tables, Some(t.users[id].username), Some(password), hash) == Accepted(t.users[id])
  {
    UserNamedIsUnique(t, id);
    var frozen := FreezeUserSpec(t, id).tables;
    StatusChangesKeepWf(t, id);
    UserNamedIsUnique(frozen, id);
    FreezeThenUnfreezeRestores(t, id);
  }

  /** The outcome of checkPermission: nothing, or a denial with the events it logged. */
  datatype Check = Check(result: Result<()>, events: seq<AuditEvent>)

  /** Java unboxes the bound user's id; a bound user always comes from the users table. */
  predicate BoundHasId(current: Option<User>) {
    current.Some? ==> current.value.id.Some?
  }

  /** hasPermission: false with nobody bound, otherwise membership in the effective set. */
  function HasPermissionSpec(t: Tables, current: Option<User>, code: string): (b: bool)
    requires BoundHasId(current)
    ensures b <==> current.Some? && exists roleId :: (current.value.id.value, roleId) in t.userRoles && code in RoleGrants(t, roleId)
  {
    if current.None? then false
    else
      EffectiveCodesAreUnionOfRoleGrants(t, current.value.id.value, code);
      code in UserPermissionCodes(t, current.value.id.value)
  }

  /** The denial names the missing code between the brackets. */
  function DeniedMessage(code: string): (r: string)
    ensures var head := "权限不足：需要权限 [";
      && |r| == |head| + |code| + 1
      && r[..|head|] == head && r[|head|..|r| - 1] == code && r[|r| - 1] == ']'
  {
    var head := "权限不足：需要权限 [";
    var r := head + code + "]";
    assert r[..|head|] == head;
    assert r[|head|..|r| - 1] == code;
    r
  }

  /**
   * checkPermission: with nobody bound it denies without logging; a bound
   * user lacking the code gets one FAIL event and a denial; otherwise it
   * passes silently.
   */
  function CheckPermissionSpec(t: Tables, current: Option<User>, code: string): (c: Check)
    requires BoundHasId(current)
    ensures c.result.Ok? <==> HasPermissionSpec(t, current, code)
    ensures c.result.Err? ==> c.result.error.PermissionDenied?
    ensures current.None? ==> c == Check(Err(PermissionDenied("未登录，无法执行此操作")), [])
    ensures c.result.Ok? ==> c.events == []
    ensures current.Some? && c.result.Err? ==>
      c.events == [FailEvent(current, "PERMISSION_CHECK", Some(code), c.result.error.msg)]
  {
    if current.None? then Check(Err(PermissionDenied("未登录，无法执行此操作")), [])
    else if !HasPermissionSpec(t, current, code) then
      Check(Err(PermissionDenied(DeniedMessage(code))), [FailEvent(current, "PERMISSION_CHECK", Some(code), DeniedMessage(code))])
    else Check(Ok(()), [])
  }

  class AuthService {
    const dir: Directory
    const session: SessionContext
    const audit: AuditLogger
    const hash: Hasher

    constructor (dir: Directory, session: SessionContext, audit: AuditLogger, hash: Hasher)
      requires audit.session == session
      ensures this.dir == dir && this.session == session && this.audit == audit && this.hash == hash
      ensures Wired()
    {
      this.dir := dir;
      this.session := session;
      this.audit := audit;
      this.hash := hash;
    }

    /** The logger reads the operator from the same session this service binds. */
    predicate Wired() {
      audit.session == session
    }

    method Login(username: Option<string>, password: Option<string>) returns (r: Result<User>)
      requires dir.Valid() && Wired()
      modifies session, audit
      ensures var d := Authenticate(dir.State(), username, password, hash);
        && r == d.Outcome()
        && session.current == (if d.Accepted? then Some(d.user) else old(session.current))
        && audit.events == old(audit.events) + [d.Event(username)]
    {
      // The checks run in the source's order; the first that fails decides,
      // and its reason and message go to the audit log and the exception.
      var decision: LoginDecision;
      if IsBlank(username) {
        decision := Rejected("用户名为空", "用户名不能为空");
      } else if IsBlank(password) {
        decision := Rejected("密码为空", "密码不能为空");
      } else {
        var user := FindByUsername(username.value);
        if user.None? {
          decision := Rejected("用户不存在", BadCredentials);
        } else if hash(password.value, user.value.salt) != user.value.passwordHash {
          decision := Rejected("密码错误", BadCredentials);
        } else if user.value.IsFrozen() {
          decision := Rejected("账户已被冻结", AccountFrozen);
        } else {
          decision := Accepted(user.value);
        }
      }
      assert decision == Authenticate(dir.State(), username, password, hash);
      r := Conclude(username, decision);
    }

    /** Acting on login's decision: logLoginFail and throw, or bind the user, logLoginSuccess and return it. */
    method Conclude(username: Option<string>, decision: LoginDecision) returns (r: Result<User>)
      modifies session, audit
      ensures r == decision.Outcome()
      ensures session.current == (if decision.Accepted? then Some(decision.user) else old(session.current))
      ensures audit.events == old(audit.events) + [decision.Event(username)]
    {
      if decision.Rejected? {
        audit.LogLoginFail(username, decision.reason);
        r := Err(AuthenticationError(decision.message));
      } else {
        session.SetCurrentUser(Some(decision.user));
        audit.LogLoginSuccess(username);
        r := Ok(decision.user);
      }
    }

    /** userDao.findByUsername */
    method FindByUsername(name: string) returns (u: Option<User>)
      requires dir.Valid()
      ensures u == UserNamed(dir.State(), name)
    {
      if !UsernameTaken(dir.State(), name) {
        return None;
      }
      var id :| id in dir.users && dir.users[id].username == name;
      UserNamedIsUnique(dir.State(), id);
      u := Some(dir.users[id]);
    }

    /** logout: with a bound user, one LOGOUT event and the session is cleared; otherwise nothing. */
    method Logout()
      requires Wired()
      modifies session, audit
      ensures session.current == None
      ensures old(session.current).Some? ==>
        audit.events == old(audit.events) + [LogoutEvent(Some(old(session.current).value.username))]
      ensures old(session.current).None? ==> audit.events == old(audit.events)
    {
      var current := session.GetCurrentUser();
      if current.Some? {
        audit.LogLogout(Some(current.value.username));
        session.Clear();
      }
    }

    method GetCurrentUser() returns (r: Result<User>)
      ensures session.current.None? <==> r.Err?
      ensures r.Err? ==> r.error == AuthenticationError("未登录或会话已过期")
      ensures r.Ok? ==> session.current == Some(r.value)
    {
      var current := session.GetCurrentUser();
      if current.None? {
        return Err(AuthenticationError("未登录或会话已过期"));
      }
      r := Ok(current.value);
    }

    /**
     * getUserPermissions: the codes of the joined permission rows, gathered
     * into a set one row at a time.
     */
    method GetUserPermissions(userId: int) returns (codes: set<string>)
      ensures codes == UserPermissionCodes(dir.State(), userId)
    {
      var rows := dir.FindPermissionsByUserId(userId);
      codes := {};
      var rest := rows;
      while rest != {}
        invariant rest <= rows
        invariant codes == set p | p in rows - rest :: p.code
        decreases |rest|
      {
        var p :| p in rest;
        codes := codes + {p.code};
        rest := rest - {p};
      }
    }

    /** getUserPermissionDetails: the joined permission rows themselves, each one a row of the permissions table. */
    method GetUserPermissionDetails(userId: int) returns (rows: set<Permission>)
      ensures rows == PermissionsOfUser(dir.State(), userId)
      ensures forall p :: p in rows ==> p in dir.permissions.Values && p.code in UserPermissionCodes(dir.State(), userId)
    {
      rows := dir.FindPermissionsByUserId(userId);
    }

    method HasPermission(code: string) returns (b: bool)
      requires BoundHasId(session.current)
      ensures b == HasPermissionSpec(dir.State(), session.current, code)
    {
      var current := session.GetCurrentUser();
      if current.None? {
        return false;
      }
      var permissions := GetUserPermissions(current.value.id.value);
      b := code in permissions;
    }

    method CheckPermission(code: string) returns (r: Result<()>)
      requires BoundHasId(session.current) && Wired()
      modifies audit
      ensures var c := CheckPermissionSpec(dir.State(), session.current, code);
        r == c.result && audit.events == old(audit.events) + c.events
    {
      var current := session.GetCurrentUser();
      if current.None? {
        return Err(PermissionDenied("未登录，无法执行此操作"));
      }
      var has := HasPermission(code);
      if !has {
        var message := DeniedMessage(code);
        audit.LogFail("PERMISSION_CHECK", Some(code), message);
        return Err(PermissionDenied(message));
      }
      r := Ok(());
    }
  }
}
