/**
 * The directory the services work on: the users, roles and permissions
 * tables, the user_roles and role_permissions pair tables, and the
 * auto-increment counters of the three entity tables. This in-memory store
 * stands in for the DAOs and follows their SQL.
 */
module Store {
  import opened Common
  import opened Model

  datatype Tables = Tables(
    users: map<int, User>,
    roles: map<int, Role>,
    permissions: map<int, Permission>,
    /** (user id, role id) rows of user_roles */
    userRoles: set<(int, int)>,
    /** (role id, permission id) rows of role_permissions */
    rolePermissions: set<(int, int)>,
    nextUserId: int,
    nextRoleId: int,
    nextPermissionId: int)

  /** An empty directory, as after the schema is created. */
  const Empty := Tables(map[], map[], map[], {}, {}, 1, 1, 1)

  /**
   * The table invariants: each row is stored under its own id, below the
   * next auto-increment value, every stored user has a status (the column
   * is written with setInt and read with getInt, so it is never null), and
   * user names, role codes and permission codes are unique.
   */
  predicate Wf(t: Tables) {
    && 1 <= t.nextUserId && 1 <= t.nextRoleId && 1 <= t.nextPermissionId
    && (forall id :: id in t.users ==> 0 < id < t.nextUserId && t.users[id].id == Some(id) && t.users[id].status.Some?)
    && (forall id :: id in t.roles ==> 0 < id < t.nextRoleId && t.roles[id].id == id)
    && (forall id :: id in t.permissions ==> 0 < id < t.nextPermissionId && t.permissions[id].id == id)
    && (forall a, b :: a in t.users && b in t.users && t.users[a].username == t.users[b].username ==> a == b)
    && (forall a, b :: a in t.roles && b in t.roles && t.roles[a].code == t.roles[b].code ==> a == b)
    && (forall a, b :: a in t.permissions && b in t.permissions && t.permissions[a].code == t.permissions[b].code ==> a == b)
  }

  lemma EmptyIsWf()
    ensures Wf(Empty)
  {
  }

  /** A service call's effect: the directory afterwards and what the call returned or threw. */
  datatype Step<T> = Step(tables: Tables, result: Result<T>)

  /** userDao.existsByUsername */
  predicate UsernameTaken(t: Tables, name: string) {
    exists id :: id in t.users && t.users[id].username == name
  }

  /** roleDao.existsByCode */
  predicate RoleCodeTaken(t: Tables, code: string) {
    exists id :: id in t.roles && t.roles[id].code == code
  }

  /** permissionDao.existsByCode */
  predicate PermissionCodeTaken(t: Tables, code: string) {
    exists id :: id in t.permissions && t.permissions[id].code == code
  }

  /** userDao.findByUsername: the row with that name, or null. */
  ghost function UserNamed(t: Tables, name: string): (r: Option<User>)
    ensures r.None? <==> !UsernameTaken(t, name)
    ensures r.Some? ==> r.value in t.users.Values && r.value.username == name
  {
    if UsernameTaken(t, name) then
      var id :| id in t.users && t.users[id].username == name;
      Some(t.users[id])
    else
      None
  }

  /** roleDao.findByCode */
  ghost function RoleCoded(t: Tables, code: string): (r: Option<Role>)
    ensures r.None? <==> !RoleCodeTaken(t, code)
    ensures r.Some? ==> r.value in t.roles.Values && r.value.code == code
  {
    if RoleCodeTaken(t, code) then
      var id :| id in t.roles && t.roles[id].code == code;
      Some(t.roles[id])
    else
      None
  }

  /** permissionDao.findByCode */
  ghost function PermissionCoded(t: Tables, code: string): (r: Option<Permission>)
    ensures r.None? <==> !PermissionCodeTaken(t, code)
    ensures r.Some? ==> r.value in t.permissions.Values && r.value.code == code
  {
    if PermissionCodeTaken(t, code) then
      var id :| id in t.permissions && t.permissions[id].code == code;
      Some(t.permissions[id])
    else
      None
  }

  /** Under the invariant the row found by name is the one stored under the user's id. */
  lemma UserNamedIsUnique(t: Tables, id: int)
    requires Wf(t) && id in t.users
    ensures UserNamed(t, t.users[id].username) == Some(t.users[id])
  {
  }

  lemma RoleCodedIsUnique(t: Tables, id: int)
    requires Wf(t) && id in t.roles
    ensures RoleCoded(t, t.roles[id].code) == Some(t.roles[id])
  {
  }

  lemma PermissionCodedIsUnique(t: Tables, id: int)
    requires Wf(t) && id in t.permissions
    ensures PermissionCoded(t, t.permissions[id].code) == Some(t.permissions[id])
  {
  }

  /**
   * permissionDao.findByUserId: `SELECT DISTINCT p.*` joining permissions,
   * role_permissions and user_roles. A pair naming a deleted permission
   * contributes nothing; the roles table is not part of the join.
   */
  function PermissionsOfUser(t: Tables, userId: int): set<Permission> {
    set pr, up | pr in t.rolePermissions && up in t.userRoles
                 && up.0 == userId && up.1 == pr.0 && pr.1 in t.permissions
      :: t.permissions[pr.1]
  }

  /** The permission codes a single role grants (the rows of permissionDao.findByRoleId). */
  function RoleGrants(t: Tables, roleId: int): set<string> {
    set pr | pr in t.rolePermissions && pr.0 == roleId && pr.1 in t.permissions :: t.permissions[pr.1].code
  }

  /**
   * authService.getUserPermissions: the codes of the joined permission rows.
   * EffectiveCodesAreUnionOfRoleGrants below proves this is the union of the
   * grants of the roles the user holds.
   */
  function UserPermissionCodes(t: Tables, userId: int): (r: set<string>)
    ensures forall c :: c in r <==> exists p :: p in PermissionsOfUser(t, userId) && p.code == c
  {
    set p | p in PermissionsOfUser(t, userId) :: p.code
  }

  /** The effective set is the union of the grants of the roles the user holds. */
  lemma {:induction false} EffectiveCodesAreUnionOfRoleGrants(t: Tables, userId: int, code: string)
    ensures code in UserPermissionCodes(t, userId)
            <==> exists roleId :: (userId, roleId) in t.userRoles && code in RoleGrants(t, roleId)
  {
    if code in UserPermissionCodes(t, userId) {
      var p :| p in PermissionsOfUser(t, userId) && p.code == code;
      var pr, up :| pr in t.rolePermissions && up in t.userRoles
                    && up.0 == userId && up.1 == pr.0 && pr.1 in t.permissions
                    && t.permissions[pr.1] == p;
      assert (userId, pr.0) == up;
      assert code in RoleGrants(t, pr.0);
    }
    if exists roleId :: (userId, roleId) in t.userRoles && code in RoleGrants(t, roleId) {
      var roleId :| (userId, roleId) in t.userRoles && code in RoleGrants(t, roleId);
      var pr :| pr in t.rolePermissions && pr.0 == roleId && pr.1 in t.permissions && t.permissions[pr.1].code == code;
      assert t.permissions[pr.1] in PermissionsOfUser(t, userId);
    }
  }

  /** A user with no role rows has no permission at all; so does an id that names no user. */
  lemma NoRolesNoPermissions(t: Tables, userId: int)
    requires forall up :: up in t.userRoles ==> up.0 != userId
    ensures UserPermissionCodes(t, userId) == {}
  {
  }

  /** roleDao.findByUserId: the roles joined through user_roles. */
  function RolesOfUser(t: Tables, userId: int): (r: set<Role>)
    ensures forall role :: role in r ==> role in t.roles.Values
  {
    set up | up in t.userRoles && up.0 == userId && up.1 in t.roles :: t.roles[up.1]
  }

  /** permissionDao.findByRoleId: the permissions joined through role_permissions. */
  function PermissionsOfRole(t: Tables, roleId: int): (r: set<Permission>)
    ensures forall p :: p in r ==> p in t.permissions.Values
    ensures forall p :: p in r ==> p.code in RoleGrants(t, roleId)
  {
    set pr | pr in t.rolePermissions && pr.0 == roleId && pr.1 in t.permissions :: t.permissions[pr.1]
  }

  /** A strictly increasing sequence of ids, as `ORDER BY id` over a key column yields. */
  predicate Increasing(ids: seq<int>) {
    forall i, j :: 0 <= i < j < |ids| ==> ids[i] < ids[j]
  }

  /** The keys of a table, in ascending order. */
  method SortedIds(keys: set<int>, next: int) returns (ids: seq<int>)
    requires forall k :: k in keys ==> 0 < k < next
    ensures Increasing(ids)
    ensures forall k :: k in ids <==> k in keys
  {
    ids := [];
    var i := 1;
    while i < next
      invariant 1 <= i && (next >= 1 ==> i <= next)
      invariant Increasing(ids)
      invariant forall k :: k in ids <==> k in keys && k < i
      invariant forall j :: 0 <= j < |ids| ==> ids[j] < i
    {
      if i in keys {
        ids := ids + [i];
      }
      i := i + 1;
    }
  }

  /** The in-memory directory; the services and the decorators share one instance. */
  class Directory {
    var users: map<int, User>
    var roles: map<int, Role>
    var permissions: map<int, Permission>
    var userRoles: set<(int, int)>
    var rolePermissions: set<(int, int)>
    var nextUserId: int
    var nextRoleId: int
    var nextPermissionId: int

    function State(): Tables
      reads this
    {
      Tables(users, roles, permissions, userRoles, rolePermissions, nextUserId, nextRoleId, nextPermissionId)
    }

    predicate Valid()
      reads this
    {
      Wf(State())
    }

    constructor ()
      ensures State() == Empty && Valid()
    {
      users, roles, permissions := map[], map[], map[];
      userRoles, rolePermissions := {}, {};
      nextUserId, nextRoleId, nextPermissionId := 1, 1, 1;
    }

    /** userDao.insert: the row gets the next auto-increment id, which is returned. */
    method InsertUser(u: User) returns (id: int)
      modifies this
      ensures id == old(nextUserId)
      ensures State() == old(State()).(users := old(users)[id := u.(id := Some(id))], nextUserId := id + 1)
    {
      id := nextUserId;
      users := users[id := u.(id := Some(id))];
      nextUserId := id + 1;
    }

    /** userDao.deleteById: removes the users row only; user_roles rows are kept. */
    method DeleteUser(id: int)
      modifies this
      ensures State() == old(State()).(users := old(users) - {id})
    {
      users := users - {id};
    }

    /** userDao.updateStatus */
    method UpdateUserStatus(id: int, status: int)
      requires id in users
      modifies this
      ensures State() == old(State()).(users := old(users)[id := old(users)[id].(status := Some(status))])
    {
      users := users[id := users[id].(status := Some(status))];
    }

    /** roleDao.insert */
    method InsertRole(role: Role) returns (id: int)
      modifies this
      ensures id == old(nextRoleId)
      ensures State() == old(State()).(roles := old(roles)[id := role.(id := id)], nextRoleId := id + 1)
    {
      id := nextRoleId;
      roles := roles[id := role.(id := id)];
      nextRoleId := id + 1;
    }

    /** roleDao.deleteById: removes the roles row only. */
    method DeleteRole(id: int)
      modifies this
      ensures State() == old(State()).(roles := old(roles) - {id})
    {
      roles := roles - {id};
    }

    /** permissionDao.insert */
    method InsertPermission(p: Permission) returns (id: int)
      modifies this
      ensures id == old(nextPermissionId)
      ensures State() == old(State()).(permissions := old(permissions)[id := p.(id := id)], nextPermissionId := id + 1)
    {
      id := nextPermissionId;
      permissions := permissions[id := p.(id := id)];
      nextPermissionId := id + 1;
    }

    /** permissionDao.deleteById: removes the permissions row only. */
    method DeletePermission(id: int)
      modifies this
      ensures State() == old(State()).(permissions := old(permissions) - {id})
    {
      permissions := permissions - {id};
    }

    /** userRoleDao.assignRole: a duplicate row is refused with false, as the unique key does. */
    method AssignRole(userId: int, roleId: int) returns (inserted: bool)
      modifies this
      ensures inserted <==> (userId, roleId) !in old(userRoles)
      ensures State() == old(State()).(userRoles := old(userRoles) + {(userId, roleId)})
    {
      inserted := (userId, roleId) !in userRoles;
      userRoles := userRoles + {(userId, roleId)};
    }

    /** userRoleDao.removeRole: true when a row was deleted. */
    method RemoveRole(userId: int, roleId: int) returns (removed: bool)
      modifies this
      ensures removed <==> (userId, roleId) in old(userRoles)
      ensures State() == old(State()).(userRoles := old(userRoles) - {(userId, roleId)})
    {
      removed := (userId, roleId) in userRoles;
      userRoles := userRoles - {(userId, roleId)};
    }

    /** rolePermissionDao.assignPermission */
    method AssignPermission(roleId: int, permissionId: int) returns (inserted: bool)
      modifies this
      ensures inserted <==> (roleId, permissionId) !in old(rolePermissions)
      ensures State() == old(State()).(rolePermissions := old(rolePermissions) + {(roleId, permissionId)})
    {
      inserted := (roleId, permissionId) !in rolePermissions;
      rolePermissions := rolePermissions + {(roleId, permissionId)};
    }

    /** rolePermissionDao.removePermission */
    method RemovePermission(roleId: int, permissionId: int) returns (removed: bool)
      modifies this
      ensures removed <==> (roleId, permissionId) in old(rolePermissions)
      ensures State() == old(State()).(rolePermissions := old(rolePermissions) - {(roleId, permissionId)})
    {
      removed := (roleId, permissionId) in rolePermissions;
      rolePermissions := rolePermissions - {(roleId, permissionId)};
    }

    /** permissionDao.findByUserId: the DISTINCT rows of the three-table join. */
    method FindPermissionsByUserId(userId: int) returns (rows: set<Permission>)
      ensures rows == PermissionsOfUser(State(), userId)
      ensures forall p :: p in rows ==> p in permissions.Values
    {
      rows := set pr, up | pr in rolePermissions && up in userRoles
                           && up.0 == userId && up.1 == pr.0 && pr.1 in permissions
                :: permissions[pr.1];
    }

    /** userDao.findAll: every user, ordered by id. */
    method FindAllUsers() returns (r: seq<User>)
      requires Valid()
      ensures forall i :: 0 <= i < |r| ==> r[i].id.Some?
      ensures forall i, j :: 0 <= i < j < |r| ==> r[i].id.value < r[j].id.value
      ensures forall u :: u in r <==> u in users.Values
    {
      var ids := SortedIds(users.Keys, nextUserId);
      var table := users;
      forall i | 0 <= i < |ids|
        ensures ids[i] in table
      {
        assert ids[i] in ids;
      }
      r := seq(|ids|, i requires 0 <= i < |ids| => table[ids[i]]);
      forall u | u in users.Values
        ensures u in r
      {
        var id :| id in users && users[id] == u;
        var i :| 0 <= i < |ids| && ids[i] == id;
        assert r[i] == u;
      }
    }

    /** roleDao.findAll: every role, ordered by id. */
    method FindAllRoles() returns (r: seq<Role>)
      requires Valid()
      ensures forall i, j :: 0 <= i < j < |r| ==> r[i].id < r[j].id
      ensures forall role :: role in r <==> role in roles.Values
    {
      var ids := SortedIds(roles.Keys, nextRoleId);
      var table := roles;
      forall i | 0 <= i < |ids|
        ensures ids[i] in table
      {
        assert ids[i] in ids;
      }
      r := seq(|ids|, i requires 0 <= i < |ids| => table[ids[i]]);
      forall role | role in roles.Values
        ensures role in r
      {
        var id :| id in roles && roles[id] == role;
        var i :| 0 <= i < |ids| && ids[i] == id;
        assert r[i] == role;
      }
    }

    /** permissionDao.findAll: every permission, ordered by id. */
    method FindAllPermissions() returns (r: seq<Permission>)
      requires Valid()
      ensures forall i, j :: 0 <= i < j < |r| ==> r[i].id < r[j].id
      ensures forall p :: p in r <==> p in permissions.Values
    {
      var ids := SortedIds(permissions.Keys, nextPermissionId);
      var table := permissions;
      forall i | 0 <= i < |ids|
        ensures ids[i] in table
      {
        assert ids[i] in ids;
      }
      r := seq(|ids|, i requires 0 <= i < |ids| => table[ids[i]]);
      forall p | p in permissions.Values
        ensures p in r
      {
        var id :| id in permissions && permissions[id] == p;
        var i :| 0 <= i < |ids| && ids[i] == id;
        assert r[i] == p;
      }
    }
  }
}
