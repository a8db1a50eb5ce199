/**
 * The entities of the access-control directory: users, roles and
 * permissions, and the permission codes the decorators demand.
 */
module Model {
  import opened Common

  /** User status 0: the account may log in. */
  const StatusNormal := 0
  /** User status 1: the account is frozen. */
  const StatusFrozen := 1

  /**
   * A user row. `id` and `status` are boxed Integers in the source and may
   * be null on an object that was never stored; a stored row always has
   * both (see Store.Wf).
   */
  datatype User = User(
    id: Option<int>,
    username: string,
    passwordHash: string,
    salt: string,
    status: Option<int>)
  {
    predicate IsFrozen() {
      status == Some(StatusFrozen)
    }

    predicate IsNormal() {
      status == Some(StatusNormal)
    }
  }

  /**
   * User.equals: identity is the id alone; two null ids are equal, and
   * equal users hash equally.
   */
  predicate SameUser(a: User, b: User)
    ensures a.id.None? && b.id.None? ==> SameUser(a, b)
    ensures SameUser(a, b) ==> HashCode(a) == HashCode(b)
  {
    a.id == b.id
  }

  /** Java int arithmetic: the value congruent to n modulo 2^32 in [-2^31, 2^31). */
  function Wrap32(n: int): (r: int)
    ensures -0x8000_0000 <= r < 0x8000_0000
    ensures (n - r) % 0x1_0000_0000 == 0
    ensures -0x8000_0000 <= n < 0x8000_0000 ==> r == n
  {
    (n + 0x8000_0000) % 0x1_0000_0000 - 0x8000_0000
  }

  /** User.hashCode, i.e. Objects.hash(id) = 31 * 1 + (id == null ? 0 : id). */
  function HashCode(u: User): (r: int)
    ensures -0x8000_0000 <= r < 0x8000_0000
    ensures u.id.None? ==> r == 31
    ensures u.id.Some? && -0x8000_0000 <= u.id.value < 0x8000_0000 - 31 ==> r == u.id.value + 31
  {
    Wrap32(31 + if u.id.Some? then u.id.value else 0)
  }

  /** The two status predicates never hold together, and neither holds for any other status. */
  lemma StatusPredicatesExclusive(u: User)
    ensures !(u.IsFrozen() && u.IsNormal())
    ensures u.status != Some(StatusNormal) && u.status != Some(StatusFrozen) ==> !u.IsFrozen() && !u.IsNormal()
  {
  }

  /** equals ignores every field but the id, and equal users hash equally. */
  lemma EqualUsersHashEqually(a: User, b: User)
    requires SameUser(a, b)
    ensures HashCode(a) == HashCode(b)
  {
  }

  lemma EqualityIgnoresOtherFields(u: User, name: string, status: Option<int>)
    ensures SameUser(u, u.(username := name, status := status))
  {
  }

  /** A role row; identity is the id. */
  datatype Role = Role(id: int, code: string, name: string, description: Option<string>)

  /** A permission row; identity is the id. */
  datatype Permission = Permission(id: int, code: string, description: Option<string>)

  // The permission codes the decorators check.
  const UserCreate := "USER:CREATE"
  const UserDelete := "USER:DELETE"
  const UserFreeze := "USER:FREEZE"
  const UserUnfreeze := "USER:UNFREEZE"
  const UserList := "USER:LIST"
  const RoleCreate := "ROLE:CREATE"
  const RoleDelete := "ROLE:DELETE"
  const RoleAssign := "ROLE:ASSIGN"
  const RoleRevoke := "ROLE:REVOKE"
  const RoleList := "ROLE:LIST"
  const PermissionList := "PERMISSION:LIST"
  const PermissionCreate := "PERMISSION:CREATE"
  const PermissionDelete := "PERMISSION:DELETE"
  const PermissionAssign := "PERMISSION:ASSIGN"
  const PermissionRevoke := "PERMISSION:REVOKE"
}
