/**
 * PermissionServiceImpl: permission creation and deletion, the lookups, and
 * the role_permissions grants with their ordered existence and conflict
 * checks.
 */
module PermissionServices {
  import opened Common
  import opened Model
  import opened Store

  /** The checks of createPermission: blank code, then taken code. No RESOURCE:ACTION format is imposed. */
  function NewPermissionError(t: Tables, code: Option<string>): (e: Option<Error>)
    ensures e.None? <==> !IsBlank(code) && !PermissionCodeTaken(t, code.value)
  {
    if IsBlank(code) then Some(BusinessError("权限编码不能为空"))
    else if PermissionCodeTaken(t, code.value) then Some(BusinessError("权限编码已存在: " + code.value))
    else None
  }

  function CreatePermissionSpec(t: Tables, code: Option<string>, description: Option<string>): (s: Step<()>)
    ensures s.result.Err? ==> s.tables == t
    ensures s.result.Ok? <==> NewPermissionError(t, code).None?
    ensures s.tables == t.(permissions := s.tables.permissions, nextPermissionId := s.tables.nextPermissionId)
  {
    var e := NewPermissionError(t, code);
    if e.Some? then Step(t, Err(e.value))
    else Step(t.(permissions := t.permissions[t.nextPermissionId := Permission(t.nextPermissionId, code.value, description)],
                 nextPermissionId := t.nextPermissionId + 1), Ok(()))
  }

  /** deletePermission: a missing id fails; otherwise only the permissions row goes. */
  function DeletePermissionSpec(t: Tables, permissionId: int): (s: Step<()>)
    ensures s.result.Err? <==> permissionId !in t.permissions
    ensures s.result.Err? ==> s.tables == t && s.result.error == BusinessError("权限不存在")
    ensures s.tables == t.(permissions := s.tables.permissions)
    ensures s.tables.permissions.Keys == t.permissions.Keys - {permissionId}
    ensures forall id :: id in s.tables.permissions ==> s.tables.permissions[id] == t.permissions[id]
  {
    if permissionId !in t.permissions then Step(t, Err(BusinessError("权限不存在")))
    else Step(t.(permissions := t.permissions - {permissionId}), Ok(()))
  }

  function GetPermissionByIdSpec(t: Tables, permissionId: int): (r: Result<Permission>)
    ensures r.Ok? <==> permissionId in t.permissions
    ensures r.Ok? ==> r.value == t.permissions[permissionId]
    ensures r.Err? ==> r.error == BusinessError("权限不存在")
  {
    if permissionId in t.permissions then Ok(t.permissions[permissionId]) else Err(BusinessError("权限不存在"))
  }

  ghost function GetPermissionByCodeSpec(t: Tables, code: string): (r: Result<Permission>)
    ensures r.Ok? <==> PermissionCodeTaken(t, code)
    ensures r.Ok? ==> r.value.code == code && r.value in t.permissions.Values
    ensures r.Err? ==> r.error == BusinessError("权限不存在: " + code)
  {
    var found := PermissionCoded(t, code);
    if found.Some? then Ok(found.value) else Err(BusinessError("权限不存在: " + code))
  }

  /** The checks shared by grant and revoke, in order: the role exists, the permission exists. */
  function GrantError(t: Tables, roleId: int, permissionId: int): (e: Option<Error>)
    ensures e.None? <==> roleId in t.roles && permissionId in t.permissions
  {
    if roleId !in t.roles then Some(BusinessError("角色不存在"))
    else if permissionId !in t.permissions then Some(BusinessError("权限不存在"))
    else None
  }

  /** assignPermissionToRole: role, permission, then the pair must not be granted; then exactly that pair is added. */
  function AssignPermissionSpec(t: Tables, roleId: int, permissionId: int): (s: Step<()>)
    ensures s.result.Ok? <==> roleId in t.roles && permissionId in t.permissions && (roleId, permissionId) !in t.rolePermissions
    ensures s.result.Err? ==> s.tables == t
    ensures s.result.Ok? ==> s.tables == t.(rolePermissions := t.rolePermissions + {(roleId, permissionId)})
  {
    var e := GrantError(t, roleId, permissionId);
    if e.Some? then Step(t, Err(e.value))
    else if (roleId, permissionId) in t.rolePermissions then Step(t, Err(BusinessError("角色已拥有该权限")))
    else Step(t.(rolePermissions := t.rolePermissions + {(roleId, permissionId)}), Ok(()))
  }

  /** removePermissionFromRole: role, permission, then the pair must be granted; then exactly that pair is removed. */
  function RemovePermissionSpec(t: Tables, roleId: int, permissionId: int): (s: Step<()>)
    ensures s.result.Ok? <==> roleId in t.roles && permissionId in t.permissions && (roleId, permissionId) in t.rolePermissions
    ensures s.result.Err? ==> s.tables == t
    ensures s.result.Ok? ==> s.tables == t.(rolePermissions := t.rolePermissions - {(roleId, permissionId)})
  {
    var e := GrantError(t, roleId, permissionId);
    if e.Some? then Step(t, Err(e.value))
    else if (roleId, permissionId) !in t.rolePermissions then Step(t, Err(BusinessError("角色未拥有该权限")))
    else Step(t.(rolePermissions := t.rolePermissions - {(roleId, permissionId)}), Ok(()))
  }

  /** getRolePermissions fails for an unknown role. */
  function GetRolePermissionsSpec(t: Tables, roleId: int): (r: Result<set<Permission>>)
    ensures r.Err? <==> roleId !in t.roles
    ensures r.Err? ==> r.error == BusinessError("角色不存在")
    ensures r.Ok? ==> forall p :: p in r.value <==> exists pr :: pr in t.rolePermissions && pr.0 == roleId && pr.1 in t.permissions && t.permissions[pr.1] == p
  {
    if roleId !in t.roles then Err(BusinessError("角色不存在")) else Ok(PermissionsOfRole(t, roleId))
  }

  /** The error each failing check of grant and revoke reports, in order. */
  lemma AssignAndRemoveErrors(t: Tables, roleId: int, permissionId: int)
    ensures roleId !in t.roles ==>
      AssignPermissionSpec(t, roleId, permissionId).result == Err(BusinessError("角色不存在"))
      && RemovePermissionSpec(t, roleId, permissionId).result == Err(BusinessError("角色不存在"))
    ensures roleId in t.roles && permissionId !in t.permissions ==>
      AssignPermissionSpec(t, roleId, permissionId).result == Err(BusinessError("权限不存在"))
      && RemovePermissionSpec(t, roleId, permissionId).result == Err(BusinessError("权限不存在"))
    ensures roleId in t.roles && permissionId in t.permissions && (roleId, permissionId) in t.rolePermissions ==>
      AssignPermissionSpec(t, roleId, permissionId) == Step(t, Err(BusinessError("角色已拥有该权限")))
    ensures roleId in t.roles && permissionId in t.permissions && (roleId, permissionId) !in t.rolePermissions ==>
      RemovePermissionSpec(t, roleId, permissionId) == Step(t, Err(BusinessError("角色未拥有该权限")))
  {
  }

  lemma InsertPermissionKeepsWf(t: Tables, p: Permission)
    requires Wf(t) && p.id == t.nextPermissionId && !PermissionCodeTaken(t, p.code)
    ensures Wf(t.(permissions := t.permissions[t.nextPermissionId := p], nextPermissionId := t.nextPermissionId + 1))
  {
    var t' := t.(permissions := t.permissions[t.nextPermissionId := p], nextPermissionId := t.nextPermissionId + 1);
    forall a, b | a in t'.permissions && b in t'.permissions && t'.permissions[a].code == t'.permissions[b].code
      ensures a == b
    {
    }
  }

  lemma CreatePermissionKeepsWf(t: Tables, code: Option<string>, description: Option<string>)
    requires Wf(t)
    ensures Wf(CreatePermissionSpec(t, code, description).tables)
  {
    if NewPermissionError(t, code).None? {
      InsertPermissionKeepsWf(t, Permission(t.nextPermissionId, code.value, description));
    }
  }

  /** A created permission is found by its code, under the id the counter handed out. */
  lemma CreatedPermissionIsFoundByCode(t: Tables, code: Option<string>, description: Option<string>)
    requires Wf(t) && CreatePermissionSpec(t, code, description).result.Ok?
    ensures var t' := CreatePermissionSpec(t, code, description).tables;
      GetPermissionByCodeSpec(t', code.value) == Ok(Permission(t.nextPermissionId, code.value, description))
  {
    CreatePermissionKeepsWf(t, code, description);
    var t' := CreatePermissionSpec(t, code, description).tables;
    PermissionCodedIsUnique(t', t.nextPermissionId);
  }

  lemma DeletePermissionKeepsWf(t: Tables, permissionId: int)
    requires Wf(t)
    ensures Wf(DeletePermissionSpec(t, permissionId).tables)
  {
  }

  lemma GrantChangesKeepWf(t: Tables, roleId: int, permissionId: int)
    requires Wf(t)
    ensures Wf(AssignPermissionSpec(t, roleId, permissionId).tables)
    ensures Wf(RemovePermissionSpec(t, roleId, permissionId).tables)
  {
  }

  /** Granting and revoking again restores the directory. */
  lemma AssignThenRemoveRestores(t: Tables, roleId: int, permissionId: int)
    requires AssignPermissionSpec(t, roleId, permissionId).result.Ok?
    ensures RemovePermissionSpec(AssignPermissionSpec(t, roleId, permissionId).tables, roleId, permissionId) == Step(t, Ok(()))
  {
    assert t.rolePermissions + {(roleId, permissionId)} - {(roleId, permissionId)} == t.rolePermissions;
  }

  /** Revoking a granted permission and granting it again restores the directory. */
  lemma RemoveThenAssignRestores(t: Tables, roleId: int, permissionId: int)
    requires RemovePermissionSpec(t, roleId, permissionId).result.Ok?
    ensures AssignPermissionSpec(RemovePermissionSpec(t, roleId, permissionId).tables, roleId, permissionId) == Step(t, Ok(()))
  {
    assert t.rolePermissions - {(roleId, permissionId)} + {(roleId, permissionId)} == t.rolePermissions;
  }

  /**
   * A successful grant adds the permission's code to the effective set of
   * exactly the users holding the role, and changes no one else's.
   */
  lemma AssignPermissionGrants(t: Tables, roleId: int, permissionId: int, userId: int)
    requires AssignPermissionSpec(t, roleId, permissionId).result.Ok?
    ensures var t' := AssignPermissionSpec(t, roleId, permissionId).tables;
      UserPermissionCodes(t', userId) ==
        UserPermissionCodes(t, userId) + (if (userId, roleId) in t.userRoles then {t.permissions[permissionId].code} else {})
  {
    var t' := AssignPermissionSpec(t, roleId, permissionId).tables;
    var code := t.permissions[permissionId].code;
    assert RoleGrants(t', roleId) == RoleGrants(t, roleId) + {code};
    assert forall r :: r != roleId ==> RoleGrants(t', r) == RoleGrants(t, r);
    forall c
      ensures c in UserPermissionCodes(t', userId) <==>
        c in UserPermissionCodes(t, userId) + (if (userId, roleId) in t.userRoles then {code} else {})
    {
      EffectiveCodesAreUnionOfRoleGrants(t', userId, c);
      EffectiveCodesAreUnionOfRoleGrants(t, userId, c);
    }
  }

  /**
   * deletePermission keeps the role_permissions rows, but the join reads
   * the permissions table, so the deleted code leaves everyone's effective
   * set.
   */
  lemma DeletePermissionRevokesEverywhere(t: Tables, permissionId: int, userId: int)
    requires Wf(t) && DeletePermissionSpec(t, permissionId).result.Ok?
    ensures t.permissions[permissionId].code !in UserPermissionCodes(DeletePermissionSpec(t, permissionId).tables, userId)
  {
    var t' := DeletePermissionSpec(t, permissionId).tables;
    var code := t.permissions[permissionId].code;
    forall p | p in PermissionsOfUser(t', userId)
      ensures p.code != code
    {
      var pr, up :| pr in t'.rolePermissions && up in t'.userRoles
                    && up.0 == userId && up.1 == pr.0 && pr.1 in t'.permissions
                    && t'.permissions[pr.1] == p;
      assert t'.permissions == t.permissions - {permissionId};
      assert pr.1 != permissionId && pr.1 in t.permissions && t.permissions[pr.1] == p;
    }
  }

  class PermissionService {
    const dir: Directory

    constructor (dir: Directory)
      ensures this.dir == dir
    {
      this.dir := dir;
    }

    method CreatePermission(code: Option<string>, description: Option<string>) returns (r: Result<()>)
      requires dir.Valid()
      modifies dir
      ensures Step(dir.State(), r) == CreatePermissionSpec(old(dir.State()), code, description)
      ensures dir.Valid()
    {
      ghost var t := dir.State();
      if IsBlank(code) {
        return Err(BusinessError("权限编码不能为空"));
      }
      if PermissionCodeTaken(dir.State(), code.value) {
        return Err(BusinessError("权限编码已存在: " + code.value));
      }
      assert NewPermissionError(t, code) == None;
      InsertAccepted(code, description);
      r := Ok(());
    }

    /** The tail of createPermission once every check has passed. */
    method InsertAccepted(code: Option<string>, description: Option<string>)
      requires dir.Valid() && NewPermissionError(dir.State(), code) == None
      modifies dir
      ensures dir.State() == CreatePermissionSpec(old(dir.State()), code, description).tables
      ensures dir.Valid()
    {
      InsertPermissionKeepsWf(dir.State(), Permission(dir.nextPermissionId, code.value, description));
      var id := dir.InsertPermission(Permission(0, code.value, description));
    }

    method DeletePermission(permissionId: int) returns (r: Result<()>)
      requires dir.Valid()
      modifies dir
      ensures Step(dir.State(), r) == DeletePermissionSpec(old(dir.State()), permissionId)
      ensures dir.Valid()
    {
      DeletePermissionKeepsWf(dir.State(), permissionId);
      if permissionId !in dir.permissions {
        return Err(BusinessError("权限不存在"));
      }
      dir.DeletePermission(permissionId);
      r := Ok(());
    }

    /** listPermissions: every permission, ordered by id. */
    method ListPermissions() returns (r: seq<Permission>)
      requires dir.Valid()
      ensures forall i, j :: 0 <= i < j < |r| ==> r[i].id < r[j].id
      ensures forall p :: p in r <==> p in dir.permissions.Values
    {
      r := dir.FindAllPermissions();
    }

    method GetPermissionById(permissionId: int) returns (r: Result<Permission>)
      ensures r == GetPermissionByIdSpec(dir.State(), permissionId)
    {
      if permissionId !in dir.permissions {
        return Err(BusinessError("权限不存在"));
      }
      r := Ok(dir.permissions[permissionId]);
    }

    method GetPermissionByCode(code: string) returns (r: Result<Permission>)
      requires dir.Valid()
      ensures r == GetPermissionByCodeSpec(dir.State(), code)
    {
      if !PermissionCodeTaken(dir.State(), code) {
        return Err(BusinessError("权限不存在: " + code));
      }
      var id :| id in dir.permissions && dir.permissions[id].code == code;
      PermissionCodedIsUnique(dir.State(), id);
      r := Ok(dir.permissions[id]);
    }

    method AssignPermissionToRole(roleId: int, permissionId: int) returns (r: Result<()>)
      requires dir.Valid()
      modifies dir
      ensures Step(dir.State(), r) == AssignPermissionSpec(old(dir.State()), roleId, permissionId)
      ensures dir.Valid()
    {
      GrantChangesKeepWf(dir.State(), roleId, permissionId);
      if roleId !in dir.roles {
        return Err(BusinessError("角色不存在"));
      }
      if permissionId !in dir.permissions {
        return Err(BusinessError("权限不存在"));
      }
      if (roleId, permissionId) in dir.rolePermissions {
        return Err(BusinessError("角色已拥有该权限"));
      }
      var inserted := dir.AssignPermission(roleId, permissionId);
      r := Ok(());
    }

    method RemovePermissionFromRole(roleId: int, permissionId: int) returns (r: Result<()>)
      requires dir.Valid()
      modifies dir
      ensures Step(dir.State(), r) == RemovePermissionSpec(old(dir.State()), roleId, permissionId)
      ensures dir.Valid()
    {
      GrantChangesKeepWf(dir.State(), roleId, permissionId);
      if roleId !in dir.roles {
        return Err(BusinessError("角色不存在"));
      }
      if permissionId !in dir.permissions {
        return Err(BusinessError("权限不存在"));
      }
      if (roleId, permissionId) !in dir.rolePermissions {
        return Err(BusinessError("角色未拥有该权限"));
      }
      var removed := dir.RemovePermission(roleId, permissionId);
      r := Ok(());
    }

    method GetRolePermissions(roleId: int) returns (r: Result<set<Permission>>)
      ensures r == GetRolePermissionsSpec(dir.State(), roleId)
    {
      if roleId !in dir.roles {
        return Err(BusinessError("角色不存在"));
      }
      r := Ok(PermissionsOfRole(dir.State(), roleId));
    }
  }
}
