/**
 * RoleServiceImpl: role creation and deletion, the role lookups, and the
 * user_roles assignments with their ordered existence and conflict checks.
 */
module RoleServices {
  import opened Common
  import opened Model
  import opened Store

  /** The checks of createRole, in order: blank code, blank name, taken code. */
  function NewRoleError(t: Tables, code: Option<string>, name: Option<string>): (e: Option<Error>)
    ensures e.None? <==> !IsBlank(code) && !IsBlank(name) && !RoleCodeTaken(t, code.value)
  {
    if IsBlank(code) then Some(BusinessError("角色编码不能为空"))
    else if IsBlank(name) then Some(BusinessError("角色名称不能为空"))
    else if RoleCodeTaken(t, code.value) then Some(BusinessError("角色编码已存在: " + code.value))
    else None
  }

  /** createRole: the checks above, then one row under the next id; the description is not checked. */
  function CreateRoleSpec(t: Tables, code: Option<string>, name: Option<string>, description: Option<string>): (s: Step<()>)
    ensures s.result.Err? ==> s.tables == t
    ensures s.result.Ok? <==> NewRoleError(t, code, name).None?
    ensures s.tables == t.(roles := s.tables.roles, nextRoleId := s.tables.nextRoleId)
  {
    var e := NewRoleError(t, code, name);
    if e.Some? then Step(t, Err(e.value))
    else Step(t.(roles := t.roles[t.nextRoleId := Role(t.nextRoleId, code.value, name.value, description)],
                 nextRoleId := t.nextRoleId + 1), Ok(()))
  }

  /** deleteRole: a missing id fails; otherwise only the roles row goes. */
  function DeleteRoleSpec(t: Tables, roleId: int): (s: Step<()>)
    ensures s.result.Err? <==> roleId !in t.roles
    ensures s.result.Err? ==> s.tables == t && s.result.error == BusinessError("角色不存在")
    ensures s.tables == t.(roles := s.tables.roles)
    ensures s.tables.roles.Keys == t.roles.Keys - {roleId}
    ensures forall id :: id in s.tables.roles ==> s.tables.roles[id] == t.roles[id]
  {
    if roleId !in t.roles then Step(t, Err(BusinessError("角色不存在")))
    else Step(t.(roles := t.roles - {roleId}), Ok(()))
  }

  function GetRoleByIdSpec(t: Tables, roleId: int): (r: Result<Role>)
    ensures r.Ok? <==> roleId in t.roles
    ensures r.Ok? ==> r.value == t.roles[roleId]
    ensures r.Err? ==> r.error == BusinessError("角色不存在")
  {
    if roleId in t.roles then Ok(t.roles[roleId]) else Err(BusinessError("角色不存在"))
  }

  ghost function GetRoleByCodeSpec(t: Tables, code: string): (r: Result<Role>)
    ensures r.Ok? <==> RoleCodeTaken(t, code)
    ensures r.Ok? ==> r.value.code == code && r.value in t.roles.Values
    ensures r.Err? ==> r.error == BusinessError("角色不存在: " + code)
  {
    var found := RoleCoded(t, code);
    if found.Some? then Ok(found.value) else Err(BusinessError("角色不存在: " + code))
  }

  /**
   * The checks shared by assignRoleToUser and removeRoleFromUser, in order:
   * the user exists, the role exists.
   */
  function PairError(t: Tables, userId: int, roleId: int): (e: Option<Error>)
    ensures e.None? <==> userId in t.users && roleId in t.roles
  {
    if userId !in t.users then Some(BusinessError("用户不存在"))
    else if roleId !in t.roles then Some(BusinessError("角色不存在"))
    else None
  }

  /** assignRoleToUser: user, role, then the pair must not be held; then exactly that pair is added. */
  function AssignRoleSpec(t: Tables, userId: int, roleId: int): (s: Step<()>)
    ensures s.result.Ok? <==> userId in t.users && roleId in t.roles && (userId, roleId) !in t.userRoles
    ensures s.result.Err? ==> s.tables == t
    ensures s.result.Ok? ==> s.tables == t.(userRoles := t.userRoles + {(userId, roleId)})
  {
    var e := PairError(t, userId, roleId);
    if e.Some? then Step(t, Err(e.value))
    else if (userId, roleId) in t.userRoles then Step(t, Err(BusinessError("用户已拥有该角色")))
    else Step(t.(userRoles := t.userRoles + {(userId, roleId)}), Ok(()))
  }

  /** removeRoleFromUser: user, role, then the pair must be held; then exactly that pair is removed. */
  function RemoveRoleSpec(t: Tables, userId: int, roleId: int): (s: Step<()>)
    ensures s.result.Ok? <==> userId in t.users && roleId in t.roles && (userId, roleId) in t.userRoles
    ensures s.result.Err? ==> s.tables == t
    ensures s.result.Ok? ==> s.tables == t.(userRoles := t.userRoles - {(userId, roleId)})
  {
    var e := PairError(t, userId, roleId);
    if e.Some? then Step(t, Err(e.value))
    else if (userId, roleId) !in t.userRoles then Step(t, Err(BusinessError("用户未拥有该角色")))
    else Step(t.(userRoles := t.userRoles - {(userId, roleId)}), Ok(()))
  }

  /** getUserRoles fails for an unknown user rather than returning nothing. */
  function GetUserRolesSpec(t: Tables, userId: int): (r: Result<set<Role>>)
    ensures r.Err? <==> userId !in t.users
    ensures r.Err? ==> r.error == BusinessError("用户不存在")
    ensures r.Ok? ==> forall role :: role in r.value <==> exists up :: up in t.userRoles && up.0 == userId && up.1 in t.roles && t.roles[up.1] == role
  {
    if userId !in t.users then Err(BusinessError("用户不存在")) else Ok(RolesOfUser(t, userId))
  }

  /** The error each failing check of assign and remove reports, in order. */
  lemma AssignAndRemoveErrors(t: Tables, userId: int, roleId: int)
    ensures userId !in t.users ==>
      AssignRoleSpec(t, userId, roleId).result == Err(BusinessError("用户不存在"))
      && RemoveRoleSpec(t, userId, roleId).result == Err(BusinessError("用户不存在"))
    ensures userId in t.users && roleId !in t.roles ==>
      AssignRoleSpec(t, userId, roleId).result == Err(BusinessError("角色不存在"))
      && RemoveRoleSpec(t, userId, roleId).result == Err(BusinessError("角色不存在"))
    ensures userId in t.users && roleId in t.roles && (userId, roleId) in t.userRoles ==>
      AssignRoleSpec(t, userId, roleId) == Step(t, Err(BusinessError("用户已拥有该角色")))
    ensures userId in t.users && roleId in t.roles && (userId, roleId) !in t.userRoles ==>
      RemoveRoleSpec(t, userId, roleId) == Step(t, Err(BusinessError("用户未拥有该角色")))
  {
  }

  /** Inserting a role under the next id with a free code keeps the table invariant. */
  lemma InsertRoleKeepsWf(t: Tables, role: Role)
    requires Wf(t) && role.id == t.nextRoleId && !RoleCodeTaken(t, role.code)
    ensures Wf(t.(roles := t.roles[t.nextRoleId := role], nextRoleId := t.nextRoleId + 1))
  {
    var t' := t.(roles := t.roles[t.nextRoleId := role], nextRoleId := t.nextRoleId + 1);
    forall a, b | a in t'.roles && b in t'.roles && t'.roles[a].code == t'.roles[b].code
      ensures a == b
    {
    }
  }

  lemma CreateRoleKeepsWf(t: Tables, code: Option<string>, name: Option<string>, description: Option<string>)
    requires Wf(t)
    ensures Wf(CreateRoleSpec(t, code, name, description).tables)
  {
    if NewRoleError(t, code, name).None? {
      InsertRoleKeepsWf(t, Role(t.nextRoleId, code.value, name.value, description));
    }
  }

  /** A created role is found by its code, under the id the counter handed out. */
  lemma CreatedRoleIsFoundByCode(t: Tables, code: Option<string>, name: Option<string>, description: Option<string>)
    requires Wf(t) && CreateRoleSpec(t, code, name, description).result.Ok?
    ensures var t' := CreateRoleSpec(t, code, name, description).tables;
      GetRoleByCodeSpec(t', code.value) == Ok(Role(t.nextRoleId, code.value, name.value, description))
  {
    CreateRoleKeepsWf(t, code, name, description);
    var t' := CreateRoleSpec(t, code, name, description).tables;
    RoleCodedIsUnique(t', t.nextRoleId);
  }

  lemma DeleteRoleKeepsWf(t: Tables, roleId: int)
    requires Wf(t)
    ensures Wf(DeleteRoleSpec(t, roleId).tables)
  {
  }

  lemma PairChangesKeepWf(t: Tables, userId: int, roleId: int)
    requires Wf(t)
    ensures Wf(AssignRoleSpec(t, userId, roleId).tables)
    ensures Wf(RemoveRoleSpec(t, userId, roleId).tables)
  {
  }

  /** Assigning a role and removing it again restores the directory. */
  lemma AssignThenRemoveRestores(t: Tables, userId: int, roleId: int)
    requires AssignRoleSpec(t, userId, roleId).result.Ok?
    ensures RemoveRoleSpec(AssignRoleSpec(t, userId, roleId).tables, userId, roleId) == Step(t, Ok(()))
  {
    assert t.userRoles + {(userId, roleId)} - {(userId, roleId)} == t.userRoles;
  }

  /** Removing a held role and assigning it again restores the directory. */
  lemma RemoveThenAssignRestores(t: Tables, userId: int, roleId: int)
    requires RemoveRoleSpec(t, userId, roleId).result.Ok?
    ensures AssignRoleSpec(RemoveRoleSpec(t, userId, roleId).tables, userId, roleId) == Step(t, Ok(()))
  {
    assert t.userRoles - {(userId, roleId)} + {(userId, roleId)} == t.userRoles;
  }

  /**
   * A successful assignment adds exactly the role's grants to the user's
   * effective permissions, and leaves every other user's set alone.
   */
  lemma AssignRoleGrants(t: Tables, userId: int, roleId: int)
    requires AssignRoleSpec(t, userId, roleId).result.Ok?
    ensures var t' := AssignRoleSpec(t, userId, roleId).tables;
      && UserPermissionCodes(t', userId) == UserPermissionCodes(t, userId) + RoleGrants(t, roleId)
      && forall other :: other != userId ==> UserPermissionCodes(t', other) == UserPermissionCodes(t, other)
  {
    var t' := AssignRoleSpec(t, userId, roleId).tables;
    assert forall r :: RoleGrants(t', r) == RoleGrants(t, r);
    forall c
      ensures c in UserPermissionCodes(t', userId) <==> c in UserPermissionCodes(t, userId) + RoleGrants(t, roleId)
    {
      EffectiveCodesAreUnionOfRoleGrants(t', userId, c);
      EffectiveCodesAreUnionOfRoleGrants(t, userId, c);
    }
    forall other, c | other != userId
      ensures c in UserPermissionCodes(t', other) <==> c in UserPermissionCodes(t, other)
    {
      EffectiveCodesAreUnionOfRoleGrants(t', other, c);
      EffectiveCodesAreUnionOfRoleGrants(t, other, c);
    }
  }

  /**
   * A successful removal can only shrink the user's effective permissions:
   * what remains is what the user's other roles grant.
   */
  lemma RemoveRoleNarrows(t: Tables, userId: int, roleId: int, c: string)
    requires RemoveRoleSpec(t, userId, roleId).result.Ok?
    ensures var t' := RemoveRoleSpec(t, userId, roleId).tables;
      c in UserPermissionCodes(t', userId) <==>
        exists r :: r != roleId && (userId, r) in t.userRoles && c in RoleGrants(t, r)
    ensures c in UserPermissionCodes(RemoveRoleSpec(t, userId, roleId).tables, userId) ==> c in UserPermissionCodes(t, userId)
  {
    var t' := RemoveRoleSpec(t, userId, roleId).tables;
    assert forall r :: RoleGrants(t', r) == RoleGrants(t, r);
    EffectiveCodesAreUnionOfRoleGrants(t', userId, c);
    EffectiveCodesAreUnionOfRoleGrants(t, userId, c);
  }

  /**
   * deleteRole drops the roles row but not its user_roles rows, and the
   * permission join does not read the roles table: nobody's effective
   * permissions change, while getUserRoles no longer lists the role.
   */
  lemma DeleteRoleKeepsEffectivePermissions(t: Tables, roleId: int, userId: int)
    requires Wf(t) && DeleteRoleSpec(t, roleId).result.Ok?
    ensures var t' := DeleteRoleSpec(t, roleId).tables;
      && UserPermissionCodes(t', userId) == UserPermissionCodes(t, userId)
      && forall role :: role in RolesOfUser(t', userId) ==> role.id != roleId
  {
    var t' := DeleteRoleSpec(t, roleId).tables;
    assert PermissionsOfUser(t', userId) == PermissionsOfUser(t, userId);
    forall role | role in RolesOfUser(t', userId)
      ensures role.id != roleId
    {
      var up :| up in t'.userRoles && up.0 == userId && up.1 in t'.roles && t'.roles[up.1] == role;
      assert t'.roles == t.roles - {roleId};
      assert up.1 != roleId && up.1 in t.roles && t.roles[up.1] == role;
      assert t.roles[up.1].id == up.1;
    }
  }

  class RoleService {
    const dir: Directory

    constructor (dir: Directory)
      ensures this.dir == dir
    {
      this.dir := dir;
    }

    method CreateRole(code: Option<string>, name: Option<string>, description: Option<string>) returns (r: Result<()>)
      requires dir.Valid()
      modifies dir
      ensures Step(dir.State(), r) == CreateRoleSpec(old(dir.State()), code, name, description)
      ensures dir.Valid()
    {
      ghost var t := dir.State();
      if IsBlank(code) {
        return Err(BusinessError("角色编码不能为空"));
      }
      if IsBlank(name) {
        return Err(BusinessError("角色名称不能为空"));
      }
      if RoleCodeTaken(dir.State(), code.value) {
        return Err(BusinessError("角色编码已存在: " + code.value));
      }
      assert NewRoleError(t, code, name) == None;
      InsertAccepted(code, name, description);
      r := Ok(());
    }

    /** The tail of createRole once every check has passed. */
    method InsertAccepted(code: Option<string>, name: Option<string>, description: Option<string>)
      requires dir.Valid() && NewRoleError(dir.State(), code, name) == None
      modifies dir
      ensures dir.State() == CreateRoleSpec(old(dir.State()), code, name, description).tables
      ensures dir.Valid()
    {
      InsertRoleKeepsWf(dir.State(), Role(dir.nextRoleId, code.value, name.value, description));
      var id := dir.InsertRole(Role(0, code.value, name.value, description));
    }

    method DeleteRole(roleId: int) returns (r: Result<()>)
      requires dir.Valid()
      modifies dir
      ensures Step(dir.State(), r) == DeleteRoleSpec(old(dir.State()), roleId)
      ensures dir.Valid()
    {
      DeleteRoleKeepsWf(dir.State(), roleId);
      if roleId !in dir.roles {
        return Err(BusinessError("角色不存在"));
      }
      dir.DeleteRole(roleId);
      r := Ok(());
    }

    /** listRoles: every role, ordered by id. */
    method ListRoles() returns (r: seq<Role>)
      requires dir.Valid()
      ensures forall i, j :: 0 <= i < j < |r| ==> r[i].id < r[j].id
      ensures forall role :: role in r <==> role in dir.roles.Values
    {
      r := dir.FindAllRoles();
    }

    method GetRoleById(roleId: int) returns (r: Result<Role>)
      ensures r == GetRoleByIdSpec(dir.State(), roleId)
    {
      if roleId !in dir.roles {
        return Err(BusinessError("角色不存在"));
      }
      r := Ok(dir.roles[roleId]);
    }

    method GetRoleByCode(code: string) returns (r: Result<Role>)
      requires dir.Valid()
      ensures r == GetRoleByCodeSpec(dir.State(), code)
    {
      if !RoleCodeTaken(dir.State(), code) {
        return Err(BusinessError("角色不存在: " + code));
      }
      var id :| id in dir.roles && dir.roles[id].code == code;
      r := Ok(dir.roles[id]);
    }

    method AssignRoleToUser(userId: int, roleId: int) returns (r: Result<()>)
      requires dir.Valid()
      modifies dir
      ensures Step(dir.State(), r) == AssignRoleSpec(old(dir.State()), userId, roleId)
      ensures dir.Valid()
    {
      PairChangesKeepWf(dir.State(), userId, roleId);
      if userId !in dir.users {
        return Err(BusinessError("用户不存在"));
      }
      if roleId !in dir.roles {
        return Err(BusinessError("角色不存在"));
      }
      if (userId, roleId) in dir.userRoles {
        return Err(BusinessError("用户已拥有该角色"));
      }
      var inserted := dir.AssignRole(userId, roleId);
      r := Ok(());
    }

    method RemoveRoleFromUser(userId: int, roleId: int) returns (r: Result<()>)
      requires dir.Valid()
      modifies dir
      ensures Step(dir.State(), r) == RemoveRoleSpec(old(dir.State()), userId, roleId)
      ensures dir.Valid()
    {
      PairChangesKeepWf(dir.State(), userId, roleId);
      if userId !in dir.users {
        return Err(BusinessError("用户不存在"));
      }
      if roleId !in dir.roles {
        return Err(BusinessError("角色不存在"));
      }
      if (userId, roleId) !in dir.userRoles {
        return Err(BusinessError("用户未拥有该角色"));
      }
      var removed := dir.RemoveRole(userId, roleId);
      r := Ok(());
    }

    method GetUserRoles(userId: int) returns (r: Result<set<Role>>)
      ensures r == GetUserRolesSpec(dir.State(), userId)
    {
      if userId !in dir.users {
        return Err(BusinessError("用户不存在"));
      }
      r := Ok(RolesOfUser(dir.State(), userId));
    }
  }
}
