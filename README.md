# RBAC authorization core, modelled in Dafny

This project models the core of a small role-based access-control (RBAC) system. The system has three kinds of records:

- users, with a salted password hash and a status of normal (0) or frozen (1);
- roles;
- permissions, named by a code such as `USER:CREATE`.

Users get roles through a `user_roles` join table, and roles get permissions through a `role_permissions` join table. A user's effective permissions are the codes granted to any of their roles.

The model covers:

- **Login and permission checks** (`AuthServiceImpl`). Login runs its checks in a fixed order, binds the user in the session and writes one audit event. `hasPermission` and `checkPermission` test a code against the bound user's effective permissions.
- **Session** (`SessionContext`): the one user bound to the current session.
- **Services** (`UserServiceImpl`, `RoleServiceImpl`, `PermissionServiceImpl`):
  - user create, delete, freeze and unfreeze;
  - role and permission create and delete;
  - assigning roles to users and removing them;
  - granting permissions to roles and removing them;
  - lookups.
- **Decorators** (`Auth*ServiceDecorator`). Each one checks a permission code first. It then runs the service and logs one CRITICAL event on success or one FAIL event on failure. It rethrows the failure.
- **Audit logger** (`AuditLogger`): how audit events are built and rendered as log lines.
- **Audit analyzer** (`AuditAnalyzer`). It parses those lines back and keeps only the failed logins. It counts them per user and hour, then warns for every bucket whose count reaches the configured threshold.

How the model is built:

- **The database** is one `Tables` value, a model of the DAOs' rows. It has:
  - maps from id to row;
  - sets of pairs for the join tables;
  - the next auto-increment ids.

  The `Store.Directory` class holds the tables as fields. Its methods update them in place, one DAO call each.
- **Each service operation** is written twice:
  - a specification function over `Tables` that returns the new tables and the result or the thrown `BusinessException`;
  - a class method that does the work through the DAO calls, proved equal to that function.
- **Properties** of the specification functions are proved as lemmas:
  - well-formedness is preserved (unique usernames and codes, ids below the next id);
  - operations round-trip (freeze/unfreeze, assign/remove);
  - the effect on effective permissions is stated.
- **Audit events** are values appended to the `Audit.AuditLogger.events` sequence. The decorators' and login's contracts say exactly which events are appended.

Modules:

| module | file | source |
|---|---|---|
| `Common` | Common.dfy | `Option`, `Result`, and the exceptions as `Error`; Java's `trim`, `indexOf(char)`, `split(" ")` and integer printing |
| `Model` | Model.dfy | `User` (with its `equals`/`hashCode`), `Role`, `Permission`, and the permission codes |
| `Session` | Session.dfy | `SessionContext` |
| `Store` | Directory.dfy | the DAOs as `Tables` plus the `Directory` class |
| `Audit` | AuditLogger.dfy | `AuditLogger` |
| `UserServices`, `RoleServices`, `PermissionServices` | UserService.dfy, RoleService.dfy, PermissionService.dfy | the three service implementations |
| `Auth` | AuthService.dfy | `AuthServiceImpl` |
| `Enforcement` | Enforcement.dfy | the protocol shared by the decorators: check, run, log one outcome |
| `UserDecorators`, `RoleDecorators`, `PermissionDecorators` | UserDecorator.dfy, RoleDecorator.dfy, PermissionDecorator.dfy | the three decorators |
| `Analyzer` | AuditAnalyzer.dfy | `AuditAnalyzer` |
| `AnalyzerProofs`, `TimestampProofs`, `WarningProofs` | AnalyzerProofs.dfy, TimestampProofs.dfy, WarningProofs.dfy | round trip from logger line to analyzer entry; timestamp parsing; the brute-force warning |

Inputs outside the core's control become parameters:

- The password hash (SHA-256 over password + salt, Base64) is a function-typed parameter `hash`. Nothing about it is assumed beyond being a function.
- The random salt is an argument of `CreateUser`.
- The log file `analyze` reads is a `LogFile` value: missing, failing to open, or a sequence of lines.
- The configuration values (log path, threshold) are constructor arguments.

## Model

| member | source | states |
|---|---|---|
| `Model.Wrap32` | src/com/rbac/model/User.java:110-113 | the result is the 32-bit two's-complement value congruent to the input modulo 2^32, and equals the input when it already fits |
| `Model.HashCode` | src/com/rbac/model/User.java:110-113 | `Objects.hash(id)` is 31 for a null id and 31 + id when that does not overflow; the result always fits in an `int` |
| `Model.StatusPredicatesExclusive` | src/com/rbac/model/User.java:91-100 | no user is both frozen and normal; a status other than 0 or 1 (or null) is neither |
| `Model.EqualUsersHashEqually` | src/com/rbac/model/User.java:103-113 | users that are `equals` (same id) have the same `hashCode` |
| `Model.EqualityIgnoresOtherFields` | src/com/rbac/model/User.java:103-108 | `equals` looks at the id only: changing username or status keeps a user equal to itself |
| `Model.SameUser` | src/com/rbac/model/User.java:103-113 | equals compares ids with Objects.equals, so two null ids are equal, and equal users have equal hashCodes |
| `Session.SessionContext.constructor` | src/com/rbac/util/SessionContext.java:10 | a fresh session has nobody bound |
| `Session.SessionContext.SetCurrentUser` | src/com/rbac/util/SessionContext.java:15-17 | the bound user becomes the argument; binding null logs the session out |
| `Session.SessionContext.GetCurrentUser` | src/com/rbac/util/SessionContext.java:22-24 | returns the bound user |
| `Session.SessionContext.IsLoggedIn` | src/com/rbac/util/SessionContext.java:28-30 | logged in exactly when a user is bound; getCurrentUser returns a user exactly then |
| `Session.SessionContext.Clear` | src/com/rbac/util/SessionContext.java:36-38 | after clearing, nobody is logged in |
| `Session.RebindThenClear` | src/com/rbac/util/SessionContext.java:15-38 | a second binding replaces the first, and clearing then leaves the session logged out |
| `Common.Trim` | src/com/rbac/service/impl/UserServiceImpl.java:25-30 | `trim()` is empty exactly when every char is <= ' '; a string with no such char at either end is unchanged |
| `Common.IndexOf` | src/com/rbac/audit/AuditAnalyzer.java:87-96 | `indexOf` gives -1 exactly when the char is absent, otherwise a position holding it with no earlier occurrence |
| `Common.IndexOfAfterPrefix` | src/com/rbac/audit/AuditAnalyzer.java:87-96 | after a prefix without the char, `indexOf` is the prefix length plus the index in the rest |
| `Common.SplitJoin` | src/com/rbac/audit/AuditAnalyzer.java:106 | splitting `x + " " + y` on a space gives the pieces of `x` followed by those of `y` |
| `Common.SplitPiecesHaveNoSpace` | src/com/rbac/audit/AuditAnalyzer.java:106 | no piece of `split(" ")` contains a space |
| `Common.NatToStringRoundTrip` | src/com/rbac/audit/AuditAnalyzer.java:61-63 | the decimal digits printed for a count read back as the count |
| `Common.FixedDigitsRoundTrip` | src/com/rbac/audit/AuditAnalyzer.java:23 | a zero-padded fixed-width field (`MM`, `dd`, `HH`, ...) reads back as its value whenever the value fits the width |
| `Store.UserNamed` | src/com/rbac/dao/UserDao.java:100-117 | `findByUsername` finds nothing exactly when no row has that name, otherwise a row of the users table with that name |
| `Store.RoleCoded` | src/com/rbac/dao/RoleDao.java:82-99 | `findByCode` finds nothing exactly when no role has that code, otherwise a row with that code |
| `Store.PermissionCoded` | src/com/rbac/dao/PermissionDao.java:81-98 | `findByCode` finds nothing exactly when no permission has that code, otherwise a row with that code |
| `Store.UserNamedIsUnique` | src/com/rbac/dao/UserDao.java:100-117 | in well-formed tables the lookup by a user's name returns that very user |
| `Store.RoleCodedIsUnique` | src/com/rbac/dao/RoleDao.java:82-99 | in well-formed tables the lookup by a role's code returns that very role |
| `Store.PermissionCodedIsUnique` | src/com/rbac/dao/PermissionDao.java:81-98 | in well-formed tables the lookup by a permission's code returns that very permission |
| `Store.EmptyIsWf` | src/com/rbac/dao/UserDao.java:18-40 | the empty database is well-formed |
| `Store.EffectiveCodesAreUnionOfRoleGrants` | src/com/rbac/dao/PermissionDao.java:123-144 | a code is effective for a user exactly when one of the user's roles is granted a permission with that code |
| `Store.NoRolesNoPermissions` | src/com/rbac/dao/PermissionDao.java:123-144 | a user with no role has no effective permission |
| `Store.RolesOfUser` | src/com/rbac/dao/RoleDao.java:124-144 | the roles joined to a user are rows of the roles table |
| `Store.PermissionsOfRole` | src/com/rbac/dao/PermissionDao.java:149-169 | the permissions joined to a role are rows of the permissions table, each granted to that role |
| `Store.SortedIds` | src/com/rbac/dao/UserDao.java:122-137 | `ORDER BY id`: the ids come out strictly increasing, each key exactly once |
| `Store.Directory.constructor` | src/com/rbac/dao/UserDao.java:13 | a new database is empty and well-formed |
| `Store.Directory.InsertUser` | src/com/rbac/dao/UserDao.java:18-40 | the row gets the next auto-increment id; nothing else changes |
| `Store.Directory.DeleteUser` | src/com/rbac/dao/UserDao.java:45-56 | only the user row goes; join rows stay |
| `Store.Directory.UpdateUserStatus` | src/com/rbac/dao/UserDao.java:61-73 | only that row's status changes |
| `Store.Directory.InsertRole` | src/com/rbac/dao/RoleDao.java:18-39 | the row gets the next role id; nothing else changes |
| `Store.Directory.DeleteRole` | src/com/rbac/dao/RoleDao.java:44-55 | only the role row goes |
| `Store.Directory.InsertPermission` | src/com/rbac/dao/PermissionDao.java:18-38 | the row gets the next permission id; nothing else changes |
| `Store.Directory.DeletePermission` | src/com/rbac/dao/PermissionDao.java:43-54 | only the permission row goes |
| `Store.Directory.AssignRole` | src/com/rbac/dao/UserRoleDao.java:18-35 | the pair is added; the insert reports success exactly when the pair was new (a duplicate key fails) |
| `Store.Directory.RemoveRole` | src/com/rbac/dao/UserRoleDao.java:40-53 | the pair is gone; the delete reports success exactly when the pair was there |
| `Store.Directory.AssignPermission` | src/com/rbac/dao/RolePermissionDao.java:18-35 | the pair is added; success exactly when it was new |
| `Store.Directory.RemovePermission` | src/com/rbac/dao/RolePermissionDao.java:40-53 | the pair is gone; success exactly when it was there |
| `Store.Directory.FindPermissionsByUserId` | src/com/rbac/dao/PermissionDao.java:123-144 | the `DISTINCT` join rows: permissions of the roles the user holds, all rows of the permissions table |
| `Store.Directory.FindAllUsers` | src/com/rbac/dao/UserDao.java:122-137 | every user exactly once, ordered by id |
| `Store.Directory.FindAllRoles` | src/com/rbac/dao/RoleDao.java:104-119 | every role exactly once, ordered by id |
| `Store.Directory.FindAllPermissions` | src/com/rbac/dao/PermissionDao.java:103-118 | every permission exactly once, ordered by id |
| `Audit.BuildLogMessage` | src/com/rbac/audit/AuditLogger.java:89-92 | the message starts with `user=` and ends with ` result=` and the result word |
| `Audit.Operator` | src/com/rbac/audit/AuditLogger.java:80-83 | the operator is the bound user's name, or `SYSTEM` when nobody is bound |
| `Audit.FormatLine` | src/com/rbac/audit/AuditLogger.java:29-33 | the line written for an event is its timestamp, a space, the marker name in brackets, a space, then the built message, each at a stated position |
| `Audit.EventsAreConsistent` | src/com/rbac/audit/AuditLogger.java:29-75 | each log method pairs its marker with its result word (SUCCESS, FAIL, CRITICAL); login success, login failure and logout events name the username as both operator and target |
| `Audit.AuditLogger.constructor` | src/com/rbac/audit/AuditLogger.java:18 | a new log holds no events |
| `Audit.AuditLogger.LogSuccess` | src/com/rbac/audit/AuditLogger.java:29-33 | appends one AUDIT_SUCCESS event whose operator is the session's user |
| `Audit.AuditLogger.LogFail` | src/com/rbac/audit/AuditLogger.java:38-42 | appends one AUDIT_FAIL event whose operator is the session's user |
| `Audit.AuditLogger.LogCritical` | src/com/rbac/audit/AuditLogger.java:47-51 | appends one AUDIT_CRITICAL event whose operator is the session's user |
| `Audit.AuditLogger.LogOutcome` | src/com/rbac/decorator/AuthUserServiceDecorator.java:25-34 | appends the one event a decorator's try/catch writes: CRITICAL on success, FAIL with the prefixed exception message on failure |
| `Audit.AuditLogger.LogLoginSuccess` | src/com/rbac/audit/AuditLogger.java:56-59 | appends one LOGIN success event for the username |
| `Audit.AuditLogger.LogLoginFail` | src/com/rbac/audit/AuditLogger.java:64-67 | appends one LOGIN fail event carrying the reason |
| `Audit.AuditLogger.LogLogout` | src/com/rbac/audit/AuditLogger.java:72-75 | appends one LOGOUT event for the username |
| `UserServices.NewUserError` | src/com/rbac/service/impl/UserServiceImpl.java:25-43 | a new user is refused exactly when the name or password is blank, the password breaks the policy, or the name is taken; every refusal is a `BusinessException` |
| `UserServices.CreateUserSpec` | src/com/rbac/service/impl/UserServiceImpl.java:23-61 | `createUser` succeeds exactly when `NewUserError` finds nothing; a refusal changes nothing; only the users table and its id counter change |
| `UserServices.DeleteUserSpec` | src/com/rbac/service/impl/UserServiceImpl.java:64-76 | fails with "用户不存在" exactly for an unknown id, changing nothing; otherwise removes exactly that user, and every other user row is unchanged |
| `UserServices.FreezeUserSpec` | src/com/rbac/service/impl/UserServiceImpl.java:79-96 | fails exactly for an unknown user, with "用户不存在", or an already frozen one, with "用户已被冻结", changing nothing; otherwise that user's row changes only in its status, which becomes frozen, and every other user row is unchanged |
| `UserServices.UnfreezeUserSpec` | src/com/rbac/service/impl/UserServiceImpl.java:99-116 | fails exactly for an unknown user, with "用户不存在", or an already normal one, with "用户已是正常状态", changing nothing; otherwise that user's row changes only in its status, which becomes normal, and every other user row is unchanged |
| `UserServices.GetUserByIdSpec` | src/com/rbac/service/impl/UserServiceImpl.java:124-130 | the row with that id, or "用户不存在" exactly when there is none |
| `UserServices.CreateUserRejections` | src/com/rbac/service/impl/UserServiceImpl.java:25-43 | the checks run in source order, and each refusal carries its own message (blank name, blank password, too short, missing a letter or a digit, name taken) |
| `UserServices.NewUserAccepted` | src/com/rbac/service/impl/UserServiceImpl.java:33-43 | a name that is not blank and not taken, with a password of 8+ chars holding a letter and a digit, is accepted |
| `UserServices.PasswordPolicySamples` | src/com/rbac/service/impl/UserServiceImpl.java:33-38 | "Pass1", "12345678" and "abcdefgh" are refused, "ValidPass123" is accepted, and a line break defeats the `.*` of `matches` |
| `UserServices.InsertUserKeepsWf` | src/com/rbac/dao/UserDao.java:18-40 | inserting a row with a new name under the next id keeps the tables well-formed |
| `UserServices.CreateUserAddsOneNormalUser` | src/com/rbac/service/impl/UserServiceImpl.java:45-57 | a successful create adds exactly one row, under the next id, normal, with hash(password, salt), and findable by its name, while every existing row is unchanged |
| `UserServices.DeleteUserKeepsWf` | src/com/rbac/service/impl/UserServiceImpl.java:64-76 | deleting keeps the tables well-formed |
| `UserServices.SetStatusKeepsWf` | src/com/rbac/dao/UserDao.java:61-73 | a status update keeps the tables well-formed |
| `UserServices.StatusChangesKeepWf` | src/com/rbac/service/impl/UserServiceImpl.java:79-116 | freeze and unfreeze keep the tables well-formed |
| `UserServices.FreezeThenUnfreezeRestores` | src/com/rbac/service/impl/UserServiceImpl.java:79-116 | freezing a normal user succeeds, and unfreezing then restores the tables exactly |
| `UserServices.UnfreezeThenFreezeRestores` | src/com/rbac/service/impl/UserServiceImpl.java:79-116 | unfreezing a frozen user succeeds, and freezing then restores the tables exactly |
| `UserServices.UserService.constructor` | src/com/rbac/service/impl/UserServiceImpl.java:17-20 | the service works on the given database and hash |
| `UserServices.UserService.CreateUser` | src/com/rbac/service/impl/UserServiceImpl.java:23-61 | the new tables and result are those of `CreateUserSpec`; the tables stay well-formed |
| `UserServices.UserService.InsertAccepted` | src/com/rbac/service/impl/UserServiceImpl.java:45-57 | for accepted input, builds and inserts the normal row with hash(password, salt), giving `CreateUserSpec`'s tables |
| `UserServices.UserService.DeleteUser` | src/com/rbac/service/impl/UserServiceImpl.java:64-76 | the new tables and result are those of `DeleteUserSpec` |
| `UserServices.UserService.FreezeUser` | src/com/rbac/service/impl/UserServiceImpl.java:79-96 | the new tables and result are those of `FreezeUserSpec` |
| `UserServices.UserService.UnfreezeUser` | src/com/rbac/service/impl/UserServiceImpl.java:99-116 | the new tables and result are those of `UnfreezeUserSpec` |
| `UserServices.UserService.ListUsers` | src/com/rbac/service/impl/UserServiceImpl.java:119-121 | every user exactly once, by increasing id |
| `UserServices.UserService.GetUserById` | src/com/rbac/service/impl/UserServiceImpl.java:124-130 | the answer of `GetUserByIdSpec` |
| `UserServices.UserService.GetUserByUsername` | src/com/rbac/service/impl/UserServiceImpl.java:133-135 | the user with that name, null exactly when the name is not taken |
| `RoleServices.NewRoleError` | src/com/rbac/service/impl/RoleServiceImpl.java:29-42 | a role is refused exactly when code or name is blank or the code is taken |
| `RoleServices.CreateRoleSpec` | src/com/rbac/service/impl/RoleServiceImpl.java:29-54 | succeeds exactly when `NewRoleError` finds nothing; a refusal changes nothing; only the roles table and its counter change |
| `RoleServices.DeleteRoleSpec` | src/com/rbac/service/impl/RoleServiceImpl.java:57-69 | fails with "角色不存在" exactly for an unknown id; otherwise removes exactly that role, and every other role row is unchanged |
| `RoleServices.GetRoleByIdSpec` | src/com/rbac/service/impl/RoleServiceImpl.java:77-83 | the row with that id, or "角色不存在" exactly when there is none |
| `RoleServices.GetRoleByCodeSpec` | src/com/rbac/service/impl/RoleServiceImpl.java:86-92 | a row with that code, or "角色不存在: code" exactly when there is none |
| `RoleServices.PairError` | src/com/rbac/service/impl/RoleServiceImpl.java:96-106 | the user and role checks pass exactly when both exist |
| `RoleServices.AssignRoleSpec` | src/com/rbac/service/impl/RoleServiceImpl.java:95-118 | succeeds exactly when user and role exist and the pair is new, and then adds just that pair; a refusal changes nothing |
| `RoleServices.RemoveRoleSpec` | src/com/rbac/service/impl/RoleServiceImpl.java:121-144 | succeeds exactly when user and role exist and the pair is present, and then removes just that pair |
| `RoleServices.GetUserRolesSpec` | src/com/rbac/service/impl/RoleServiceImpl.java:147-155 | "用户不存在" exactly for an unknown user, otherwise exactly the existing roles joined to the user |
| `RoleServices.AssignAndRemoveErrors` | src/com/rbac/service/impl/RoleServiceImpl.java:95-144 | the refusals come in source order: unknown user, then unknown role, then the pair's presence, each with its message |
| `RoleServices.InsertRoleKeepsWf` | src/com/rbac/dao/RoleDao.java:18-39 | inserting a role with a new code under the next id keeps the tables well-formed |
| `RoleServices.CreateRoleKeepsWf` | src/com/rbac/service/impl/RoleServiceImpl.java:29-54 | creating a role keeps the tables well-formed |
| `RoleServices.CreatedRoleIsFoundByCode` | src/com/rbac/service/impl/RoleServiceImpl.java:29-92 | after a successful create, `getRoleByCode` returns the new row, with the next id |
| `RoleServices.DeleteRoleKeepsWf` | src/com/rbac/service/impl/RoleServiceImpl.java:57-69 | deleting keeps the tables well-formed |
| `RoleServices.PairChangesKeepWf` | src/com/rbac/service/impl/RoleServiceImpl.java:95-144 | assign and remove keep the tables well-formed |
| `RoleServices.AssignThenRemoveRestores` | src/com/rbac/service/impl/RoleServiceImpl.java:95-144 | a successful assignment undone by removal restores the tables exactly |
| `RoleServices.RemoveThenAssignRestores` | src/com/rbac/service/impl/RoleServiceImpl.java:95-144 | a successful removal undone by assignment restores the tables exactly |
| `RoleServices.AssignRoleGrants` | src/com/rbac/service/impl/RoleServiceImpl.java:95-118 | assigning a role adds exactly that role's grants to the user's effective codes and changes nobody else's |
| `RoleServices.RemoveRoleNarrows` | src/com/rbac/service/impl/RoleServiceImpl.java:121-144 | after removal, a code is effective exactly when another of the user's roles grants it; nothing is gained |
| `RoleServices.DeleteRoleKeepsEffectivePermissions` | src/com/rbac/service/impl/RoleServiceImpl.java:57-69 | deleting a role row leaves effective codes unchanged (the join rows stay), while the user's listed roles no longer include it |
| `RoleServices.RoleService.constructor` | src/com/rbac/service/impl/RoleServiceImpl.java:22-26 | the service works on the given database |
| `RoleServices.RoleService.CreateRole` | src/com/rbac/service/impl/RoleServiceImpl.java:29-54 | the new tables and result are those of `CreateRoleSpec`; the tables stay well-formed |
| `RoleServices.RoleService.InsertAccepted` | src/com/rbac/service/impl/RoleServiceImpl.java:44-53 | for accepted input, inserts the row giving `CreateRoleSpec`'s tables |
| `RoleServices.RoleService.DeleteRole` | src/com/rbac/service/impl/RoleServiceImpl.java:57-69 | the new tables and result are those of `DeleteRoleSpec` |
| `RoleServices.RoleService.ListRoles` | src/com/rbac/service/impl/RoleServiceImpl.java:72-74 | every role exactly once, by increasing id |
| `RoleServices.RoleService.GetRoleById` | src/com/rbac/service/impl/RoleServiceImpl.java:77-83 | the answer of `GetRoleByIdSpec` |
| `RoleServices.RoleService.GetRoleByCode` | src/com/rbac/service/impl/RoleServiceImpl.java:86-92 | the answer of `GetRoleByCodeSpec` |
| `RoleServices.RoleService.AssignRoleToUser` | src/com/rbac/service/impl/RoleServiceImpl.java:95-118 | the new tables and result are those of `AssignRoleSpec` |
| `RoleServices.RoleService.RemoveRoleFromUser` | src/com/rbac/service/impl/RoleServiceImpl.java:121-144 | the new tables and result are those of `RemoveRoleSpec` |
| `RoleServices.RoleService.GetUserRoles` | src/com/rbac/service/impl/RoleServiceImpl.java:147-155 | the answer of `GetUserRolesSpec` |
| `PermissionServices.NewPermissionError` | src/com/rbac/service/impl/PermissionServiceImpl.java:29-39 | a permission is refused exactly when its code is blank or taken |
| `PermissionServices.CreatePermissionSpec` | src/com/rbac/service/impl/PermissionServiceImpl.java:29-50 | succeeds exactly when `NewPermissionError` finds nothing; a refusal changes nothing; only the permissions table and its counter change |
| `PermissionServices.DeletePermissionSpec` | src/com/rbac/service/impl/PermissionServiceImpl.java:53-65 | fails with "权限不存在" exactly for an unknown id; otherwise removes exactly that permission, and every other permission row is unchanged |
| `PermissionServices.GetPermissionByIdSpec` | src/com/rbac/service/impl/PermissionServiceImpl.java:73-79 | the row with that id, or "权限不存在" exactly when there is none |
| `PermissionServices.GetPermissionByCodeSpec` | src/com/rbac/service/impl/PermissionServiceImpl.java:82-88 | a row with that code, or "权限不存在: code" exactly when there is none |
| `PermissionServices.GrantError` | src/com/rbac/service/impl/PermissionServiceImpl.java:92-102 | the role and permission checks pass exactly when both exist |
| `PermissionServices.AssignPermissionSpec` | src/com/rbac/service/impl/PermissionServiceImpl.java:91-114 | succeeds exactly when role and permission exist and the pair is new, and then adds just that pair |
| `PermissionServices.RemovePermissionSpec` | src/com/rbac/service/impl/PermissionServiceImpl.java:117-140 | succeeds exactly when role and permission exist and the pair is present, and then removes just that pair |
| `PermissionServices.GetRolePermissionsSpec` | src/com/rbac/service/impl/PermissionServiceImpl.java:143-151 | "角色不存在" exactly for an unknown role, otherwise exactly the existing permissions granted to it |
| `PermissionServices.AssignAndRemoveErrors` | src/com/rbac/service/impl/PermissionServiceImpl.java:91-140 | the refusals come in source order: unknown role, then unknown permission, then the pair's presence, each with its message |
| `PermissionServices.InsertPermissionKeepsWf` | src/com/rbac/dao/PermissionDao.java:18-38 | inserting a permission with a new code under the next id keeps the tables well-formed |
| `PermissionServices.CreatePermissionKeepsWf` | src/com/rbac/service/impl/PermissionServiceImpl.java:29-50 | creating keeps the tables well-formed |
| `PermissionServices.CreatedPermissionIsFoundByCode` | src/com/rbac/service/impl/PermissionServiceImpl.java:29-88 | after a successful create, `getPermissionByCode` returns the new row, with the next id |
| `PermissionServices.DeletePermissionKeepsWf` | src/com/rbac/service/impl/PermissionServiceImpl.java:53-65 | deleting keeps the tables well-formed |
| `PermissionServices.GrantChangesKeepWf` | src/com/rbac/service/impl/PermissionServiceImpl.java:91-140 | granting and revoking keep the tables well-formed |
| `PermissionServices.AssignThenRemoveRestores` | src/com/rbac/service/impl/PermissionServiceImpl.java:91-140 | a grant undone by a revocation restores the tables exactly |
| `PermissionServices.RemoveThenAssignRestores` | src/com/rbac/service/impl/PermissionServiceImpl.java:91-140 | a revocation undone by a grant restores the tables exactly |
| `PermissionServices.AssignPermissionGrants` | src/com/rbac/service/impl/PermissionServiceImpl.java:91-114 | granting adds the permission's code to the effective codes of exactly the users holding that role |
| `PermissionServices.DeletePermissionRevokesEverywhere` | src/com/rbac/service/impl/PermissionServiceImpl.java:53-65 | once a permission row is deleted, its code is effective for nobody |
| `PermissionServices.PermissionService.constructor` | src/com/rbac/service/impl/PermissionServiceImpl.java:22-26 | the service works on the given database |
| `PermissionServices.PermissionService.CreatePermission` | src/com/rbac/service/impl/PermissionServiceImpl.java:29-50 | the new tables and result are those of `CreatePermissionSpec`; the tables stay well-formed |
| `PermissionServices.PermissionService.InsertAccepted` | src/com/rbac/service/impl/PermissionServiceImpl.java:41-49 | for accepted input, inserts the row giving `CreatePermissionSpec`'s tables |
| `PermissionServices.PermissionService.DeletePermission` | src/com/rbac/service/impl/PermissionServiceImpl.java:53-65 | the new tables and result are those of `DeletePermissionSpec` |
| `PermissionServices.PermissionService.ListPermissions` | src/com/rbac/service/impl/PermissionServiceImpl.java:68-70 | every permission exactly once, by increasing id |
| `PermissionServices.PermissionService.GetPermissionById` | src/com/rbac/service/impl/PermissionServiceImpl.java:73-79 | the answer of `GetPermissionByIdSpec` |
| `PermissionServices.PermissionService.GetPermissionByCode` | src/com/rbac/service/impl/PermissionServiceImpl.java:82-88 | the answer of `GetPermissionByCodeSpec` |
| `PermissionServices.PermissionService.AssignPermissionToRole` | src/com/rbac/service/impl/PermissionServiceImpl.java:91-114 | the new tables and result are those of `AssignPermissionSpec` |
| `PermissionServices.PermissionService.RemovePermissionFromRole` | src/com/rbac/service/impl/PermissionServiceImpl.java:117-140 | the new tables and result are those of `RemovePermissionSpec` |
| `PermissionServices.PermissionService.GetRolePermissions` | src/com/rbac/service/impl/PermissionServiceImpl.java:143-151 | the answer of `GetRolePermissionsSpec` |
| `Auth.Authenticate` | src/com/rbac/service/impl/AuthServiceImpl.java:32-70 | an accepted login is the named user's own row, with a matching hash and not frozen; any refusal of non-blank credentials says either "用户名或密码错误" or "账户已被冻结，请联系管理员" |
| `Auth.AcceptedExactlyWhenCredentialsMatch` | src/com/rbac/service/impl/AuthServiceImpl.java:34-69 | a login is accepted exactly when both fields are non-blank, the name belongs to a user, the password hashes to that user's hash and the user is not frozen |
| `Auth.BlankCredentialsRejected` | src/com/rbac/service/impl/AuthServiceImpl.java:34-41 | a blank username is refused with "用户名为空" / "用户名不能为空" before anything else; a non-blank username with a blank password with "密码为空" / "密码不能为空" |
| `Auth.CorrectCredentialsAccepted` | src/com/rbac/service/impl/AuthServiceImpl.java:44-69 | every user whose status is not frozen (including a status other than 0 and 1) is accepted with its own row when given its name and a password whose hash matches |
| `Auth.CredentialErrorsAreGeneric` | src/com/rbac/service/impl/AuthServiceImpl.java:44-55 | an unknown name and a wrong password both fail with the same message |
| `Auth.FrozenIsRevealedOnlyWithThePassword` | src/com/rbac/service/impl/AuthServiceImpl.java:51-61 | a frozen account is refused either way; it is reported frozen exactly when the password is right, and generically exactly when it is wrong |
| `Auth.CreatedUserCanLogIn` | src/com/rbac/service/impl/AuthServiceImpl.java:32-70 | a user created successfully logs in with the same name and password and gets the new row |
| `Auth.FreezeBlocksAndUnfreezeRestoresLogin` | src/com/rbac/service/impl/AuthServiceImpl.java:58-61 | the right credentials log in; after a freeze they are refused as frozen; after an unfreeze they log in again as the same row |
| `Auth.HasPermissionSpec` | src/com/rbac/service/impl/AuthServiceImpl.java:91-99 | true exactly when someone is bound and one of their roles grants the code |
| `Auth.DeniedMessage` | src/com/rbac/service/impl/AuthServiceImpl.java:108 | the denial message is "权限不足：需要权限 [" followed by the missing code and "]" |
| `Auth.CheckPermissionSpec` | src/com/rbac/service/impl/AuthServiceImpl.java:102-113 | passes exactly when `hasPermission` holds, logging nothing. With nobody bound it denies without logging. Otherwise it denies with one PERMISSION_CHECK fail event. Every denial is a `PermissionDeniedException` |
| `Auth.AuthService.constructor` | src/com/rbac/service/impl/AuthServiceImpl.java:24-29 | the service shares the logger's session |
| `Auth.AuthService.Login` | src/com/rbac/service/impl/AuthServiceImpl.java:32-70 | the result is `Authenticate`'s: the user, or the `AuthenticationException`. Only success binds the session. Exactly one LOGIN event is appended, success or fail with its reason |
| `Auth.AuthService.Conclude` | src/com/rbac/service/impl/AuthServiceImpl.java:35-69 | a refusal logs its reason and throws; an acceptance binds the user, then logs success |
| `Auth.AuthService.FindByUsername` | src/com/rbac/dao/UserDao.java:100-117 | the row with that name, or null |
| `Auth.AuthService.Logout` | src/com/rbac/service/impl/AuthServiceImpl.java:73-79 | the session ends empty; one LOGOUT event for the bound user, and none when nobody was bound |
| `Auth.AuthService.GetCurrentUser` | src/com/rbac/service/impl/AuthServiceImpl.java:82-88 | the bound user, or "未登录或会话已过期" exactly when nobody is bound |
| `Auth.AuthService.GetUserPermissions` | src/com/rbac/service/impl/AuthServiceImpl.java:116-123 | exactly the user's effective codes |
| `Auth.AuthService.GetUserPermissionDetails` | src/com/rbac/service/impl/AuthServiceImpl.java:126-128 | the joined permission rows, each a row of the table whose code is effective for the user |
| `Auth.AuthService.HasPermission` | src/com/rbac/service/impl/AuthServiceImpl.java:91-99 | the answer of `HasPermissionSpec` |
| `Auth.AuthService.CheckPermission` | src/com/rbac/service/impl/AuthServiceImpl.java:102-113 | the result and events of `CheckPermissionSpec` |
| `Enforcement.Enforce` | src/com/rbac/decorator/AuthUserServiceDecorator.java:25-34 | a decorated call that succeeds returns the delegate's result |
| `Enforcement.Guarded` | src/com/rbac/decorator/AuthUserServiceDecorator.java:82-85 | a guarded read never changes the tables and, when it succeeds, returns the delegate's answer |
| `Enforcement.UsernameOf` | src/com/rbac/decorator/AuthUserServiceDecorator.java:40-42 | a name exists exactly for a known user id (the `getUserById` before the change) |
| `Enforcement.RoleCodeOf` | src/com/rbac/decorator/AuthRoleServiceDecorator.java:44-46 | a code exists exactly for a known role id |
| `Enforcement.PermissionCodeOf` | src/com/rbac/decorator/AuthPermissionServiceDecorator.java:44-46 | a code exists exactly for a known permission id |
| `Enforcement.DeniedCallChangesNothing` | src/com/rbac/decorator/AuthUserServiceDecorator.java:25-34 | without the permission a call changes no table and throws `PermissionDeniedException`; it logs only the check's own event, and nothing when nobody is bound |
| `Enforcement.OneEventPerOutcome` | src/com/rbac/decorator/AuthUserServiceDecorator.java:25-34 | with someone bound, a decorated call writes exactly one event: CRITICAL exactly when it succeeds, FAIL exactly when it fails |
| `Enforcement.PermittedCallRunsDelegate` | src/com/rbac/decorator/AuthUserServiceDecorator.java:25-34 | with the permission, the call has the delegate's effect and result, and logs CRITICAL or FAIL with the delegate's message after the prefix |
| `Enforcement.SuccessImpliesPermission` | src/com/rbac/decorator/AuthUserServiceDecorator.java:25-34 | a decorated call succeeds only for a bound user holding the code |
| `Enforcement.GuardedReadLogsOnlyDenials` | src/com/rbac/decorator/AuthUserServiceDecorator.java:76-91 | a permitted read returns the delegate's answer and logs nothing; a refused one throws `PermissionDeniedException` |
| `UserDecorators.AuthUserServiceDecorator.constructor` | src/com/rbac/decorator/AuthUserServiceDecorator.java:19-22 | wraps the given service and auth service |
| `UserDecorators.AuthUserServiceDecorator.CreateUser` | src/com/rbac/decorator/AuthUserServiceDecorator.java:25-34 | tables, result and events are those of `Enforce` over `CreateUserSpec` with `USER:CREATE` |
| `UserDecorators.AuthUserServiceDecorator.DeleteUser` | src/com/rbac/decorator/AuthUserServiceDecorator.java:37-47 | the same, over `DeleteUserSpec` with `USER:DELETE`, target the username on success and the id on failure |
| `UserDecorators.AuthUserServiceDecorator.FreezeUser` | src/com/rbac/decorator/AuthUserServiceDecorator.java:50-60 | the same, over `FreezeUserSpec` with `USER:FREEZE` |
| `UserDecorators.AuthUserServiceDecorator.UnfreezeUser` | src/com/rbac/decorator/AuthUserServiceDecorator.java:63-73 | the same, over `UnfreezeUserSpec` with `USER:UNFREEZE` |
| `UserDecorators.AuthUserServiceDecorator.ListUsers` | src/com/rbac/decorator/AuthUserServiceDecorator.java:76-79 | the check's result and events; when permitted, every user once by increasing id |
| `UserDecorators.AuthUserServiceDecorator.GetUserById` | src/com/rbac/decorator/AuthUserServiceDecorator.java:82-85 | `Guarded` by `USER:LIST` over `GetUserByIdSpec` |
| `UserDecorators.AuthUserServiceDecorator.GetUserByUsername` | src/com/rbac/decorator/AuthUserServiceDecorator.java:88-91 | `Guarded` by `USER:LIST` over the lookup by name |
| `RoleDecorators.AuthRoleServiceDecorator.constructor` | src/com/rbac/decorator/AuthRoleServiceDecorator.java:22-26 | wraps the given services |
| `RoleDecorators.AuthRoleServiceDecorator.CreateRole` | src/com/rbac/decorator/AuthRoleServiceDecorator.java:29-38 | `Enforce` over `CreateRoleSpec` with `ROLE:CREATE` |
| `RoleDecorators.AuthRoleServiceDecorator.DeleteRole` | src/com/rbac/decorator/AuthRoleServiceDecorator.java:41-51 | `Enforce` over `DeleteRoleSpec` with `ROLE:DELETE`, target the role code on success and the id on failure |
| `RoleDecorators.AuthRoleServiceDecorator.ListRoles` | src/com/rbac/decorator/AuthRoleServiceDecorator.java:54-57 | the check's result and events; when permitted, every role once by increasing id |
| `RoleDecorators.AuthRoleServiceDecorator.GetRoleById` | src/com/rbac/decorator/AuthRoleServiceDecorator.java:60-63 | `Guarded` by `ROLE:LIST` over `GetRoleByIdSpec` |
| `RoleDecorators.AuthRoleServiceDecorator.GetRoleByCode` | src/com/rbac/decorator/AuthRoleServiceDecorator.java:66-69 | `Guarded` by `ROLE:LIST` over `GetRoleByCodeSpec` |
| `RoleDecorators.AuthRoleServiceDecorator.AssignRoleToUser` | src/com/rbac/decorator/AuthRoleServiceDecorator.java:72-85 | `Enforce` over `AssignRoleSpec` with `ROLE:ASSIGN`, success message naming the role code |
| `RoleDecorators.AuthRoleServiceDecorator.RemoveRoleFromUser` | src/com/rbac/decorator/AuthRoleServiceDecorator.java:88-101 | `Enforce` over `RemoveRoleSpec` with `ROLE:REVOKE` |
| `RoleDecorators.AuthRoleServiceDecorator.GetUserRoles` | src/com/rbac/decorator/AuthRoleServiceDecorator.java:104-107 | `Guarded` by `ROLE:LIST` over `GetUserRolesSpec` |
| `PermissionDecorators.AuthPermissionServiceDecorator.constructor` | src/com/rbac/decorator/AuthPermissionServiceDecorator.java:22-26 | wraps the given services |
| `PermissionDecorators.AuthPermissionServiceDecorator.CreatePermission` | src/com/rbac/decorator/AuthPermissionServiceDecorator.java:29-38 | `Enforce` over `CreatePermissionSpec` with `PERMISSION:CREATE` |
| `PermissionDecorators.AuthPermissionServiceDecorator.DeletePermission` | src/com/rbac/decorator/AuthPermissionServiceDecorator.java:41-51 | `Enforce` over `DeletePermissionSpec` with `PERMISSION:DELETE` |
| `PermissionDecorators.AuthPermissionServiceDecorator.ListPermissions` | src/com/rbac/decorator/AuthPermissionServiceDecorator.java:54-57 | the check's result and events; when permitted, every permission once by increasing id |
| `PermissionDecorators.AuthPermissionServiceDecorator.GetPermissionById` | src/com/rbac/decorator/AuthPermissionServiceDecorator.java:60-63 | `Guarded` by `PERMISSION:LIST` over `GetPermissionByIdSpec` |
| `PermissionDecorators.AuthPermissionServiceDecorator.GetPermissionByCode` | src/com/rbac/decorator/AuthPermissionServiceDecorator.java:66-69 | `Guarded` by `PERMISSION:LIST` over `GetPermissionByCodeSpec` |
| `PermissionDecorators.AuthPermissionServiceDecorator.AssignPermissionToRole` | src/com/rbac/decorator/AuthPermissionServiceDecorator.java:72-85 | `Enforce` over `AssignPermissionSpec` with `PERMISSION:ASSIGN` |
| `PermissionDecorators.AuthPermissionServiceDecorator.RemovePermissionFromRole` | src/com/rbac/decorator/AuthPermissionServiceDecorator.java:88-101 | `Enforce` over `RemovePermissionSpec` with `PERMISSION:REVOKE` |
| `PermissionDecorators.AuthPermissionServiceDecorator.GetRolePermissions` | src/com/rbac/decorator/AuthPermissionServiceDecorator.java:104-107 | `Guarded` by `PERMISSION:LIST` over `GetRolePermissionsSpec` |
| `Analyzer.DaysInMonth` | src/com/rbac/audit/AuditAnalyzer.java:92 | months have 28 to 31 days, and 31 exactly for the seven long months |
| `Analyzer.NextDay` | src/com/rbac/audit/AuditAnalyzer.java:92 | the midnight after a valid day is valid, in the same year or on 1 January of the next |
| `Analyzer.ParseTimestamp` | src/com/rbac/audit/AuditAnalyzer.java:92 | a parsed timestamp has the `yyyy-MM-dd'T'HH:mm:ss` shape, is a valid date-time, and contains no space or bracket |
| `Analyzer.TruncateToHour` | src/com/rbac/audit/AuditAnalyzer.java:52 | `truncatedTo(HOURS)` zeroes minutes and seconds, keeps the rest, and keeps validity |
| `Analyzer.Put` | src/com/rbac/audit/AuditAnalyzer.java:107-113 | a piece with `=` past its first character splits at the first `=` into a non-empty key without `=` and a value that rejoin to the piece; that key is set and every other field is kept; any other piece is ignored |
| `Analyzer.EntryAfter` | src/com/rbac/audit/AuditAnalyzer.java:95-121 | a parsed entry needs both brackets; its level contains no `]`, and its user, action and result no space |
| `Analyzer.ParseLine` | src/com/rbac/audit/AuditAnalyzer.java:80-126 | an entry is produced only for a non-blank line with a space and both brackets, whose first word parses as its timestamp |
| `Analyzer.FieldsHaveNoSpace` | src/com/rbac/audit/AuditAnalyzer.java:106-114 | field values taken from space-split pieces contain no space |
| `Analyzer.CountedBucket` | src/com/rbac/audit/AuditAnalyzer.java:45-52 | a line is counted exactly when it parses with level AUDIT_FAIL and action LOGIN; its bucket is the entry's user and its timestamp truncated to the hour |
| `Analyzer.Buckets` | src/com/rbac/audit/AuditAnalyzer.java:45-48 | one entry per line: that line's (user, hour) bucket when it is a parsed AUDIT_FAIL LOGIN entry |
| `Analyzer.CountIn` | src/com/rbac/audit/AuditAnalyzer.java:49-55 | a bucket's count never exceeds the number of lines |
| `Analyzer.TallyCounts` | src/com/rbac/audit/AuditAnalyzer.java:49-55 | the grouping map holds exactly the buckets seen, each with its number of lines |
| `Analyzer.TallyStep` | src/com/rbac/audit/AuditAnalyzer.java:44-55 | the grouping over one more line is the previous grouping bumped by that line's bucket |
| `Analyzer.FlaggedMeansAtThreshold` | src/com/rbac/audit/AuditAnalyzer.java:58-60 | a bucket is flagged exactly when it was seen and its count reaches the threshold |
| `Analyzer.WarningText` | src/com/rbac/audit/AuditAnalyzer.java:61-64 | the warning starts "高风险：用户[", names the user right after it followed by "]", and ends with "次，可能存在暴力破解或异常登录" |
| `Analyzer.WarningsFor` | src/com/rbac/audit/AuditAnalyzer.java:61-64 | one warning text per listed bucket, in that order, naming its count |
| `Analyzer.WarningsForSnoc` | src/com/rbac/audit/AuditAnalyzer.java:58-67 | adding a bucket to the list adds its warning at the end |
| `Analyzer.AuditAnalyzer.constructor` | src/com/rbac/audit/AuditAnalyzer.java:25-29 | keeps the configured log path and threshold |
| `Analyzer.AuditAnalyzer.Default` | src/com/rbac/audit/AuditAnalyzer.java:26-28 | the configuration defaults: `logs/audit.log` and 5 |
| `Analyzer.AuditAnalyzer.Analyze` | src/com/rbac/audit/AuditAnalyzer.java:34-74 | a missing file gives its one warning and a read failure its one warning; otherwise one warning per flagged bucket, in some order |
| `Analyzer.AuditAnalyzer.TallyLines` | src/com/rbac/audit/AuditAnalyzer.java:44-55 | the grouping pass builds exactly the fold `Tally` over the lines' buckets |
| `Analyzer.AuditAnalyzer.WarningsOver` | src/com/rbac/audit/AuditAnalyzer.java:58-67 | iterating the grouping map yields one warning per bucket at or above the threshold |
| `AnalyzerProofs.LineLayout` | src/com/rbac/audit/AuditAnalyzer.java:78-100 | in `ts [LEVEL] body` the first space ends the timestamp and the first brackets enclose the level |
| `AnalyzerProofs.BodyTokens` | src/com/rbac/audit/AuditLogger.java:89-92 | splitting a built message gives the user, action and target tokens; then `msg=` glued to the message's first word, the message's other words, and the result token |
| `AnalyzerProofs.BodyFields` | src/com/rbac/audit/AuditAnalyzer.java:103-114 | reading the fields back from a built message recovers operator, action, target, the message's first word and the result |
| `AnalyzerProofs.ParseLayout` | src/com/rbac/audit/AuditAnalyzer.java:80-126 | a line with a parsable timestamp, a plain level and a trimmed body parses to its timestamp, the level and the body's fields (empty when absent) |
| `AnalyzerProofs.ParseFormattedLine` | src/com/rbac/audit/AuditAnalyzer.java:80-126 | a line the logger writes parses back to its timestamp, marker, operator, action, target, the message's first word and result, provided the operator, action, target and result contain no space, no later word of the message has the form `key=value`, and the result does not end in a character that trim removes |
| `AnalyzerProofs.FailedLoginIsCounted` | src/com/rbac/audit/AuditLogger.java:64-67 | a failed-login line is counted in the bucket of its user and hour, provided the username contains no space and no later word of "登录失败: " + reason has the form `key=value` |
| `TimestampProofs.StampFields` | src/com/rbac/audit/AuditAnalyzer.java:23 | a zero-padded stamp has the timestamp shape and each field reads back as its number |
| `TimestampProofs.TimestampRoundTrip` | src/com/rbac/audit/AuditAnalyzer.java:23 | formatting a valid date-time up to year 9999 and parsing it back gives the same date-time |
| `TimestampProofs.DayClampedToMonthEnd` | src/com/rbac/audit/AuditAnalyzer.java:92 | the SMART resolver moves a day 29-31 that is past the end of the month back to the month's last day |
| `TimestampProofs.EndOfDayRollsOver` | src/com/rbac/audit/AuditAnalyzer.java:92 | `24:00:00` is accepted as the midnight that starts the next day |
| `TimestampProofs.StampRejected` | src/com/rbac/audit/AuditAnalyzer.java:92 | a two-digit-field stamp is refused exactly for year 0, month 0 or >12, day 0 or >31, minute or second >59, hour >24, or 24 with non-zero minutes or seconds |
| `TimestampProofs.LeapFebruaryThirtieth` | src/com/rbac/audit/AuditAnalyzer.java:92 | 30 February of a leap year reads as the 29th |
| `TimestampProofs.CommonFebruaryEnd` | src/com/rbac/audit/AuditAnalyzer.java:92 | 29 or 30 February of a common year reads as the 28th |
| `TimestampProofs.YearEndRollsOver` | src/com/rbac/audit/AuditAnalyzer.java:92 | `24:00` on 31 December is 1 January of the next year |
| `TimestampProofs.PastMidnightAndYearZeroRefused` | src/com/rbac/audit/AuditAnalyzer.java:92 | year 0 and any time past 24:00:00 are refused |
| `WarningProofs.EnumeratedWarnings` | src/com/rbac/audit/AuditAnalyzer.java:58-67 | listing each bucket of a set once gives as many warnings as buckets, a warning for each, and nothing else |
| `WarningProofs.WarningsMatchFlagged` | src/com/rbac/audit/AuditAnalyzer.java:58-67 | the analyzer's warnings correspond one to one with the flagged buckets, each naming its count |
| `WarningProofs.WarningsPermute` | src/com/rbac/audit/AuditAnalyzer.java:58-67 | reordering the buckets only reorders the warnings |
| `WarningProofs.EnumerationsPermute` | src/com/rbac/audit/AuditAnalyzer.java:58-67 | two listings of the same set are permutations of each other |
| `WarningProofs.WarningsUpToOrder` | src/com/rbac/audit/AuditAnalyzer.java:58-67 | any two results of `analyze` on the same lines are the same warnings up to order |
| `WarningProofs.CountInUniform` | src/com/rbac/audit/AuditAnalyzer.java:49-55 | lines all in one bucket count that many there and none elsewhere |
| `WarningProofs.FlaggedOfUniform` | src/com/rbac/audit/AuditAnalyzer.java:58-60 | lines all in one bucket flag that bucket exactly when their number reaches the threshold |
| `WarningProofs.WarningsOfUniform` | src/com/rbac/audit/AuditAnalyzer.java:58-67 | lines all in one bucket give exactly one warning when there are at least threshold of them, otherwise none |
| `WarningProofs.WarningsOfRepeat` | src/com/rbac/audit/AuditAnalyzer.java:34-74 | n copies of a counted line give one warning naming n when n reaches the threshold, otherwise none |
| `WarningProofs.HackerFailureCounted` | src/com/rbac/audit/AuditLogger.java:64-67 | a failed login by `hacker` formatted at a valid time is counted in that user's hour |
| `WarningProofs.HourTextLayout` | src/com/rbac/audit/AuditAnalyzer.java:63 | the hour in a warning is the sixteen characters `yyyy-MM-dd HH:00`, whose digit fields read back as the hour's year, month, day and hour |
| `WarningProofs.BruteForceWarning` | src/com/rbac/audit/AuditAnalyzer.java:58-67 | with the default threshold 5, ten failed logins in an hour give exactly one warning naming 10, and four give none |

## Left out

- Database failures are left out. Each DAO wraps a `SQLException` in a `RuntimeException`, so a database failure surfaces as an unchecked exception, which the model does not represent: its DAO calls always complete. The services' "创建用户失败", "删除用户失败" and similar branches, taken when a DAO reports 0 rows or `false`, are left out with them. The one `false` a DAO returns without a database failure, the duplicate-key join insert, is modelled, and so is the delete of a missing pair.
- SQL collation is left out: the model compares names and codes as exact strings.
- Java strings are sequences of UTF-16 code units, while `string` here is a sequence of Dafny chars; surrogate pairs are not modelled.
- Deletes do not cascade. The visible SQL deletes only the row, and the schema with its foreign keys is not part of this model. So join rows naming a deleted user or role stay, and are modelled as staying.
- The JDBC layer, the connection pool and the database reset utility are not part of this model. The same holds for `MenuHandler`, `MainApp` and the test and debug mains.
- The password hash is an uninterpreted function parameter, so SHA-256, Base64 and the UTF-8 encoding are not modelled. `generateSalt`'s randomness becomes the `salt` argument.
- `SessionContext` is a `ThreadLocal`. The model has one session object shared by the services, so nothing about several threads is modelled.
- The log4j layout is not part of this model: the line written for an event is taken to be `timestamp [MARKER] message`, the shape `parseLine` expects. The file system and the logger's output stream are replaced by the `events` sequence and the `LogFile` value.
- `Paths.get` normalization of the configured log path is left out. The missing-file warning prints the path as configured.
- An `UncheckedIOException` raised while streaming lines escapes `analyze` in Java. The model covers only the `IOException` on opening (`OpenFailed`).
- The nested per-user, per-hour maps of `analyze` are flattened into one map keyed by (user, hour). The warnings come out in the same set. The model leaves their order fully open; Java additionally keeps one user's warnings adjacent, since it walks each user's inner map in turn, so only the order of the users and the order of each user's hours are open there.
- Java's `split` also drops trailing empty pieces; `Common.Split` keeps them. No field is read from an empty piece, so `parseLine`'s result is the same.
- Join-table results (`findByUserId`, `findByRoleId`) are sets rather than ordered lists. The queries have no `ORDER BY`, so their order is not part of the contract.
- The decorators' `try/catch` with `logCritical`/`logFail` is one `LogOutcome` call on the delegate's result. It writes the same event as the branch Java takes.
- Login computes its decision (`Auth.Authenticate`'s order of checks) and then hands it to `Conclude`, which logs and binds. The events, their order and the thrown messages are those of `login`.
- A bound user without an id would make `getUserPermissions(currentUser.getId())` throw a `NullPointerException`. Every bound user comes from the users table, so the model requires the bound user to have an id (`Auth.BoundHasId`).
- AnalyzerProofs.FailedLoginIsCounted: stated only for usernames without a space and reasons with no later `key=value` word. createUser refuses only blank names and login logs the raw username, so a failure by a name with a space is counted by Java under the name's first word; the model does not state that case.
- AnalyzerProofs.ParseFormattedLine: stated only for space-free operator, action, target and result, a message with no later `key=value` word, and a result that trim leaves intact; other lines parse to different fields, which the model does not state.
- TimestampProofs.TimestampRoundTrip: stated only up to year 9999. Above it the `yyyy` pattern prints a `+` sign, which the fixed-width parse does not read back.
- Analyzer.ParseTimestamp: reads only the four-digit-year form that the logger writes. Java's signed years and years of more than four digits are not parsed.
