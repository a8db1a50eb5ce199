/**
 * UserServiceImpl: account creation with the password rule, deletion,
 * freezing and unfreezing, and the user lookups.
 */
module UserServices {
  import opened Common
  import opened Model
  import opened Store

  /** The password hash; SHA-256 over salt and password in the source, uninterpreted here. */
  type Hasher = (string, string) -> string

  predicate IsAsciiLetter(c: char) {
    'a' <= c <= 'z' || 'A' <= c <= 'Z'
  }

  /** Java's `\d` without UNICODE_CHARACTER_CLASS: ASCII digits only. */
  predicate IsAsciiDigit(c: char) {
    '0' <= c <= '9'
  }

  /** The characters a regex `.` does not match. */
  predicate IsLineTerminator(c: char) {
    c == '\n' || c == '\r' || c == '\U{0085}' || c == '\U{2028}' || c == '\U{2029}'
  }

  /**
   * `s.matches(".*X.*")`: some character is an X, and every other character
   * is matched by `.`.
   */
  predicate MatchesSurrounded(s: string, letter: bool) {
    && (exists i :: 0 <= i < |s| && (if letter then IsAsciiLetter(s[i]) else IsAsciiDigit(s[i])))
    && (forall i :: 0 <= i < |s| ==> !IsLineTerminator(s[i]))
  }

  /** The complexity rule: at least 8 characters, containing an ASCII letter and a digit. */
  predicate MeetsPasswordPolicy(password: string) {
    |password| >= 8 && MatchesSurrounded(password, true) && MatchesSurrounded(password, false)
  }

  /**
   * The checks of createUser, in order: blank name, blank password, length,
   * letter-and-digit, taken name. None when the account may be created.
   */
  function NewUserError(t: Tables, username: Option<string>, password: Option<string>): (e: Option<Error>)
    ensures e.None? <==>
      !IsBlank(username) && !IsBlank(password) && MeetsPasswordPolicy(password.value) && !UsernameTaken(t, username.value)
    ensures e.Some? ==> e.value.BusinessError?
  {
    if IsBlank(username) then Some(BusinessError("用户名不能为空"))
    else if IsBlank(password) then Some(BusinessError("密码不能为空"))
    else if |password.value| < 8 then Some(BusinessError("密码长度至少为8位"))
    else if !MatchesSurrounded(password.value, true) || !MatchesSurrounded(password.value, false) then
      Some(BusinessError("密码必须包含字母和数字"))
    else if UsernameTaken(t, username.value) then
      Some(BusinessError("用户名已存在: " + username.value))
    else
      None
  }

  /** The row createUser inserts: the next id, the salted hash, status 0. */
  function NewUserRow(t: Tables, username: string, password: string, salt: string, hash: Hasher): User {
    User(Some(t.nextUserId), username, hash(password, salt), salt, Some(StatusNormal))
  }

  /** createUser: the checks above, then one row with status 0 is inserted. */
  function CreateUserSpec(t: Tables, username: Option<string>, password: Option<string>, salt: string, hash: Hasher): (s: Step<()>)
    ensures s.result.Err? ==> s.tables == t && s.result.error.BusinessError?
    ensures s.result.Ok? <==> NewUserError(t, username, password).None?
    ensures s.tables == t.(users := s.tables.users, nextUserId := s.tables.nextUserId)
  {
    var e := NewUserError(t, username, password);
    if e.Some? then Step(t, Err(e.value))
    else
      var u := NewUserRow(t, username.value, password.value, salt, hash);
      Step(t.(users := t.users[t.nextUserId := u], nextUserId := t.nextUserId + 1), Ok(()))
  }

  /** deleteUser: a missing id fails; otherwise the users row goes and nothing else changes. */
  function DeleteUserSpec(t: Tables, userId: int): (s: Step<()>)
    ensures s.result.Err? <==> userId !in t.users
    ensures s.result.Err? ==> s.tables == t && s.result.error == BusinessError("用户不存在")
    ensures s.result.Ok? ==> s.tables.users.Keys == t.users.Keys - {userId}
    ensures forall id :: id in s.tables.users ==> s.tables.users[id] == t.users[id]
    ensures s.tables == t.(users := s.tables.users)
  {
    if userId !in t.users then Step(t, Err(BusinessError("用户不存在")))
    else Step(t.(users := t.users - {userId}), Ok(()))
  }

  /** freezeUser: missing id, then already frozen; otherwise status becomes 1. */
  function FreezeUserSpec(t: Tables, userId: int): (s: Step<()>)
    ensures s.result.Err? <==> userId !in t.users || t.users[userId].IsFrozen()
    ensures s.result.Err? ==> s.tables == t
    ensures userId !in t.users ==> s.result == Err(BusinessError("用户不存在"))
    ensures userId in t.users && t.users[userId].IsFrozen() ==> s.result == Err(BusinessError("用户已被冻结"))
    ensures s.result.Ok? ==> s.tables.users.Keys == t.users.Keys && s.tables.users[userId].IsFrozen()
    ensures s.result.Ok? ==> s.tables.users[userId] == t.users[userId].(status := Some(StatusFrozen))
    ensures forall id :: id in t.users && id != userId ==> s.tables.users[id] == t.users[id]
    ensures s.tables == t.(users := s.tables.users)
  {
    if userId !in t.users then Step(t, Err(BusinessError("用户不存在")))
    else if t.users[userId].IsFrozen() then Step(t, Err(BusinessError("用户已被冻结")))
    else Step(t.(users := t.users[userId := t.users[userId].(status := Some(StatusFrozen))]), Ok(()))
  }

  /** unfreezeUser: missing id, then already normal; otherwise status becomes 0. */
  function UnfreezeUserSpec(t: Tables, userId: int): (s: Step<()>)
    ensures s.result.Err? <==> userId !in t.users || t.users[userId].IsNormal()
    ensures s.result.Err? ==> s.tables == t
    ensures userId !in t.users ==> s.result == Err(BusinessError("用户不存在"))
    ensures userId in t.users && t.users[userId].IsNormal() ==> s.result == Err(BusinessError("用户已是正常状态"))
    ensures s.result.Ok? ==> s.tables.users.Keys == t.users.Keys && s.tables.users[userId].IsNormal()
    ensures s.result.Ok? ==> s.tables.users[userId] == t.users[userId].(status := Some(StatusNormal))
    ensures forall id :: id in t.users && id != userId ==> s.tables.users[id] == t.users[id]
    ensures s.tables == t.(users := s.tables.users)
  {
    if userId !in t.users then Step(t, Err(BusinessError("用户不存在")))
    else if t.users[userId].IsNormal() then Step(t, Err(BusinessError("用户已是正常状态")))
    else Step(t.(users := t.users[userId := t.users[userId].(status := Some(StatusNormal))]), Ok(()))
  }

  /** getUserById throws for a missing id ... */
  function GetUserByIdSpec(t: Tables, userId: int): (r: Result<User>)
    ensures r.Ok? <==> userId in t.users
    ensures r.Ok? ==> r.value == t.users[userId]
    ensures r.Err? ==> r.error == BusinessError("用户不存在")
  {
    if userId in t.users then Ok(t.users[userId]) else Err(BusinessError("用户不存在"))
  }

  /** Every check of createUser, in order. */
  lemma CreateUserRejections(t: Tables, username: Option<string>, password: Option<string>)
    ensures IsBlank(username) ==> NewUserError(t, username, password) == Some(BusinessError("用户名不能为空"))
    ensures !IsBlank(username) && IsBlank(password) ==>
      NewUserError(t, username, password) == Some(BusinessError("密码不能为空"))
    ensures !IsBlank(username) && !IsBlank(password) && |password.value| < 8 ==>
      NewUserError(t, username, password) == Some(BusinessError("密码长度至少为8位"))
    ensures !IsBlank(username) && !IsBlank(password) && |password.value| >= 8 && !MeetsPasswordPolicy(password.value) ==>
      NewUserError(t, username, password) == Some(BusinessError("密码必须包含字母和数字"))
    ensures !IsBlank(username) && !IsBlank(password) && MeetsPasswordPolicy(password.value) && UsernameTaken(t, username.value) ==>
      NewUserError(t, username, password) == Some(BusinessError("用户名已存在: " + username.value))
  {
  }

  lemma NewUserAccepted(t: Tables, username: Option<string>, password: Option<string>)
    requires !IsBlank(username) && !IsBlank(password)
    requires |password.value| >= 8 && MatchesSurrounded(password.value, true) && MatchesSurrounded(password.value, false)
    requires !UsernameTaken(t, username.value)
    ensures NewUserError(t, username, password) == None
  {
  }

  lemma PasswordPolicySamples()
    ensures !MeetsPasswordPolicy("Pass1")
    ensures !MeetsPasswordPolicy("12345678")
    ensures !MeetsPasswordPolicy("abcdefgh")
    ensures MeetsPasswordPolicy("ValidPass123")
    ensures !MeetsPasswordPolicy("Valid\nPass123")
  {
    assert IsAsciiLetter("ValidPass123"[0]) && IsAsciiDigit("ValidPass123"[9]);
    assert IsLineTerminator("Valid\nPass123"[5]);
  }

  /** Inserting a row under the next id with a free name keeps the table invariant. */
  lemma InsertUserKeepsWf(t: Tables, u: User)
    requires Wf(t) && u.id == Some(t.nextUserId) && u.status.Some? && !UsernameTaken(t, u.username)
    ensures Wf(t.(users := t.users[t.nextUserId := u], nextUserId := t.nextUserId + 1))
  {
    var t' := t.(users := t.users[t.nextUserId := u], nextUserId := t.nextUserId + 1);
    forall a, b | a in t'.users && b in t'.users && t'.users[a].username == t'.users[b].username
      ensures a == b
    {
    }
  }

  /**
   * A successful create adds exactly one user, under a fresh id, with status
   * 0 and the hash of the given password, which can be found by its name;
   * the table invariant is kept.
   */
  lemma CreateUserAddsOneNormalUser(t: Tables, username: Option<string>, password: Option<string>, salt: string, hash: Hasher)
    requires Wf(t)
    requires CreateUserSpec(t, username, password, salt, hash).result.Ok?
    ensures var t' := CreateUserSpec(t, username, password, salt, hash).tables;
      && Wf(t')
      && t.nextUserId !in t.users
      && t'.users.Keys == t.users.Keys + {t.nextUserId}
      && (forall id :: id in t.users ==> t'.users[id] == t.users[id])
      && t'.users[t.nextUserId].IsNormal()
      && t'.users[t.nextUserId].passwordHash == hash(password.value, salt)
      && UserNamed(t', username.value) == Some(t'.users[t.nextUserId])
  {
    assert NewUserError(t, username, password).None?;
    var u := NewUserRow(t, username.value, password.value, salt, hash);
    var t' := t.(users := t.users[t.nextUserId := u], nextUserId := t.nextUserId + 1);
    assert CreateUserSpec(t, username, password, salt, hash).tables == t';
    InsertUserKeepsWf(t, u);
    UserNamedIsUnique(t', t.nextUserId);
  }

  lemma DeleteUserKeepsWf(t: Tables, userId: int)
    requires Wf(t)
    ensures Wf(DeleteUserSpec(t, userId).tables)
  {
  }

  /** Rewriting the status of one row keeps the table invariant. */
  lemma SetStatusKeepsWf(t: Tables, userId: int, status: int)
    requires Wf(t) && userId in t.users
    ensures Wf(t.(users := t.users[userId := t.users[userId].(status := Some(status))]))
  {
    var t' := t.(users := t.users[userId := t.users[userId].(status := Some(status))]);
    assert forall id :: id in t'.users ==> t'.users[id].username == t.users[id].username;
  }

  /** Freezing and unfreezing change the status field of one row and keep the invariant. */
  lemma StatusChangesKeepWf(t: Tables, userId: int)
    requires Wf(t)
    ensures Wf(FreezeUserSpec(t, userId).tables)
    ensures Wf(UnfreezeUserSpec(t, userId).tables)
  {
    if userId in t.users {
      SetStatusKeepsWf(t, userId, StatusFrozen);
      SetStatusKeepsWf(t, userId, StatusNormal);
    }
  }

  /** Freezing a normal user and unfreezing it again restores the directory. */
  lemma FreezeThenUnfreezeRestores(t: Tables, userId: int)
    requires userId in t.users && t.users[userId].IsNormal()
    ensures FreezeUserSpec(t, userId).result.Ok?
    ensures var t' := FreezeUserSpec(t, userId).tables;
      UnfreezeUserSpec(t', userId) == Step(t, Ok(()))
  {
    var t' := FreezeUserSpec(t, userId).tables;
    assert t'.users[userId := t'.users[userId].(status := Some(StatusNormal))] == t.users;
  }

  /** Unfreezing a frozen user and freezing it again restores the directory. */
  lemma UnfreezeThenFreezeRestores(t: Tables, userId: int)
    requires userId in t.users && t.users[userId].IsFrozen()
    ensures UnfreezeUserSpec(t, userId).result.Ok?
    ensures var t' := UnfreezeUserSpec(t, userId).tables;
      FreezeUserSpec(t', userId) == Step(t, Ok(()))
  {
    var t' := UnfreezeUserSpec(t, userId).tables;
    assert t'.users[userId := t'.users[userId].(status := Some(StatusFrozen))] == t.users;
  }

  class UserService {
    const dir: Directory
    const hash: Hasher

    constructor (dir: Directory, hash: Hasher)
      ensures this.dir == dir && this.hash == hash
    {
      this.dir := dir;
      this.hash := hash;
    }

    method CreateUser(username: Option<string>, password: Option<string>, salt: string) returns (r: Result<()>)
      requires dir.Valid()
      modifies dir
      ensures Step(dir.State(), r) == CreateUserSpec(old(dir.State()), username, password, salt, hash)
      ensures dir.Valid()
    {
      ghost var t := dir.State();
      CreateUserRejections(t, username, password);
      if IsBlank(username) {
        return Err(BusinessError("用户名不能为空"));
      }
      if IsBlank(password) {
        return Err(BusinessError("密码不能为空"));
      }
      var pw := password.value;
      if |pw| < 8 {
        return Err(BusinessError("密码长度至少为8位"));
      }
      if !MatchesSurrounded(pw, true) || !MatchesSurrounded(pw, false) {
        return Err(BusinessError("密码必须包含字母和数字"));
      }
      if UsernameTaken(dir.State(), username.value) {
        return Err(BusinessError("用户名已存在: " + username.value));
      }
      NewUserAccepted(t, username, password);
      InsertAccepted(username, password, salt);
      r := Ok(());
    }

    /** The tail of createUser once every check has passed: hash, then insert with status 0. */
    method InsertAccepted(username: Option<string>, password: Option<string>, salt: string)
      requires dir.Valid() && NewUserError(dir.State(), username, password) == None
      modifies dir
      ensures dir.State() == CreateUserSpec(old(dir.State()), username, password, salt, hash).tables
      ensures dir.Valid()
    {
      ghost var t := dir.State();
      var passwordHash := hash(password.value, salt);
      InsertUserKeepsWf(t, NewUserRow(t, username.value, password.value, salt, hash));
      var id := dir.InsertUser(User(None, username.value, passwordHash, salt, Some(StatusNormal)));
    }

    method DeleteUser(userId: int) returns (r: Result<()>)
      requires dir.Valid()
      modifies dir
      ensures Step(dir.State(), r) == DeleteUserSpec(old(dir.State()), userId)
      ensures dir.Valid()
    {
      DeleteUserKeepsWf(dir.State(), userId);
      if userId !in dir.users {
        return Err(BusinessError("用户不存在"));
      }
      dir.DeleteUser(userId);
      r := Ok(());
    }

    method FreezeUser(userId: int) returns (r: Result<()>)
      requires dir.Valid()
      modifies dir
      ensures Step(dir.State(), r) == FreezeUserSpec(old(dir.State()), userId)
      ensures dir.Valid()
    {
      StatusChangesKeepWf(dir.State(), userId);
      if userId !in dir.users {
        return Err(BusinessError("用户不存在"));
      }
      var user := dir.users[userId];
      if user.IsFrozen() {
        return Err(BusinessError("用户已被冻结"));
      }
      dir.UpdateUserStatus(userId, StatusFrozen);
      r := Ok(());
    }

    method UnfreezeUser(userId: int) returns (r: Result<()>)
      requires dir.Valid()
      modifies dir
      ensures Step(dir.State(), r) == UnfreezeUserSpec(old(dir.State()), userId)
      ensures dir.Valid()
    {
      StatusChangesKeepWf(dir.State(), userId);
      if userId !in dir.users {
        return Err(BusinessError("用户不存在"));
      }
      var user := dir.users[userId];
      if user.IsNormal() {
        return Err(BusinessError("用户已是正常状态"));
      }
      dir.UpdateUserStatus(userId, StatusNormal);
      r := Ok(());
    }

    /** listUsers: every user, ordered by id. */
    method ListUsers() returns (r: seq<User>)
      requires dir.Valid()
      ensures forall i :: 0 <= i < |r| ==> r[i].id.Some?
      ensures forall i, j :: 0 <= i < j < |r| ==> r[i].id.value < r[j].id.value
      ensures forall u :: u in r <==> u in dir.users.Values
    {
      r := dir.FindAllUsers();
    }

    method GetUserById(userId: int) returns (r: Result<User>)
      ensures r == GetUserByIdSpec(dir.State(), userId)
    {
      if userId !in dir.users {
        return Err(BusinessError("用户不存在"));
      }
      r := Ok(dir.users[userId]);
    }

    /** ... whereas getUserByUsername returns null for an unknown name. */
    method GetUserByUsername(username: string) returns (r: Option<User>)
      requires dir.Valid()
      ensures r == UserNamed(dir.State(), username)
      ensures r.None? <==> !UsernameTaken(dir.State(), username)
    {
      if !UsernameTaken(dir.State(), username) {
        return None;
      }
      var id :| id in dir.users && dir.users[id].username == username;
      UserNamedIsUnique(dir.State(), id);
      r := Some(dir.users[id]);
    }
  }
}
