/**
 * The protocol every decorator follows around a sensitive call: check the
 * permission, run the delegate, then log exactly one CRITICAL event on
 * success or one FAIL event on failure and rethrow the same exception.
 */
module Enforcement {
  import opened Common
  import opened Model
  import opened Store
  import opened Audit
  import opened Auth

  /** A decorated call's effect: the directory afterwards, the result, and the events appended. */
  datatype Outcome<T> = Outcome(tables: Tables, result: Result<T>, events: seq<AuditEvent>)

  /**
   * A mutation behind a decorator: `step` is what the delegate does to the
   * directory it is handed, `okTarget`/`okMessage` the CRITICAL event's
   * fields and `failTarget`/`failPrefix` the FAIL event's.
   */
  function Enforce<T>(t: Tables, current: Option<User>, code: string, step: Step<T>, action: string,
                      okTarget: Option<string>, okMessage: string, failTarget: Option<string>, failPrefix: string): (o: Outcome<T>)
    requires BoundHasId(current)
    requires step.result.Err? ==> step.tables == t
    ensures o.result.Ok? ==> o.result == step.result
  {
    var check := CheckPermissionSpec(t, current, code);
    if check.result.Err? then Outcome(t, Err(check.result.error), check.events)
    else Outcome(step.tables, step.result, [OutcomeEvent(current, step.result, action, okTarget, okMessage, failTarget, failPrefix)])
  }

  /** The name of the user a decorator fetched before the change (used only when it exists). */
  function UsernameOf(t: Tables, userId: int): (r: Option<string>)
    ensures userId in t.users <==> r.Some?
  {
    if userId in t.users then Some(t.users[userId].username) else None
  }

  function RoleCodeOf(t: Tables, roleId: int): (r: Option<string>)
    ensures roleId in t.roles <==> r.Some?
  {
    if roleId in t.roles then Some(t.roles[roleId].code) else None
  }

  function PermissionCodeOf(t: Tables, permissionId: int): (r: Option<string>)
    ensures permissionId in t.permissions <==> r.Some?
  {
    if permissionId in t.permissions then Some(t.permissions[permissionId].code) else None
  }

  /** `String.format("... [%s] ...", code)` around a code fetched before the change. */
  function Bracketed(prefix: string, code: Option<string>, suffix: string): string {
    prefix + "[" + Render(code) + "]" + suffix
  }

  /** A read behind a decorator: the check, then the delegate's answer, with no event of its own. */
  function Guarded<T>(t: Tables, current: Option<User>, code: string, answer: Result<T>): (o: Outcome<T>)
    requires BoundHasId(current)
    ensures o.tables == t
    ensures o.result.Ok? ==> o.result == answer
  {
    var check := CheckPermissionSpec(t, current, code);
    if check.result.Err? then Outcome(t, Err(check.result.error), check.events)
    else Outcome(t, answer, [])
  }

  /**
   * Check before act: a call that is denied never reaches the delegate,
   * leaves the directory as it was, and logs nothing of its own — only the
   * check's own FAIL event when somebody is logged in.
   */
  lemma DeniedCallChangesNothing<T>(t: Tables, current: Option<User>, code: string, step: Step<T>, action: string,
                                    okTarget: Option<string>, okMessage: string, failTarget: Option<string>, failPrefix: string)
    requires BoundHasId(current)
    requires step.result.Err? ==> step.tables == t
    requires !HasPermissionSpec(t, current, code)
    ensures var o := Enforce(t, current, code, step, action, okTarget, okMessage, failTarget, failPrefix);
      && o.tables == t
      && o.result.Err? && o.result.error.PermissionDenied?
      && o.events == CheckPermissionSpec(t, current, code).events
      && (current.None? ==> o.events == [])
      && (current.Some? ==> o.events == [FailEvent(current, "PERMISSION_CHECK", Some(code), DeniedMessage(code))])
  {
  }

  /**
   * Exactly one event per outcome once somebody is logged in: the denial,
   * the success, or the failure, each with its own marker.
   */
  lemma OneEventPerOutcome<T>(t: Tables, current: Option<User>, code: string, step: Step<T>, action: string,
                              okTarget: Option<string>, okMessage: string, failTarget: Option<string>, failPrefix: string)
    requires BoundHasId(current) && current.Some?
    requires step.result.Err? ==> step.tables == t
    ensures var o := Enforce(t, current, code, step, action, okTarget, okMessage, failTarget, failPrefix);
      && |o.events| == 1
      && (o.result.Ok? <==> o.events[0].marker == AuditCritical)
      && (o.result.Err? <==> o.events[0].marker == AuditFail)
  {
  }

  /**
   * A permitted call has exactly the delegate's effect and result: on
   * success one CRITICAL event; on failure the delegate's own exception,
   * unchanged, and one FAIL event whose message ends with its message.
   */
  lemma PermittedCallRunsDelegate<T>(t: Tables, current: Option<User>, code: string, step: Step<T>, action: string,
                                     okTarget: Option<string>, okMessage: string, failTarget: Option<string>, failPrefix: string)
    requires BoundHasId(current)
    requires step.result.Err? ==> step.tables == t
    requires HasPermissionSpec(t, current, code)
    ensures var o := Enforce(t, current, code, step, action, okTarget, okMessage, failTarget, failPrefix);
      && o.tables == step.tables && o.result == step.result
      && (step.result.Ok? ==> o.events == [CriticalEvent(current, action, okTarget, okMessage)])
      && (step.result.Err? ==>
            && o.events == [FailEvent(current, action, failTarget, failPrefix + step.result.error.Message())]
            && o.events[0].message[|failPrefix|..] == step.result.error.msg)
  {
  }

  /** A decorated mutation succeeds only for a logged-in user holding the code. */
  lemma SuccessImpliesPermission<T>(t: Tables, current: Option<User>, code: string, step: Step<T>, action: string,
                                    okTarget: Option<string>, okMessage: string, failTarget: Option<string>, failPrefix: string)
    requires BoundHasId(current)
    requires step.result.Err? ==> step.tables == t
    requires Enforce(t, current, code, step, action, okTarget, okMessage, failTarget, failPrefix).result.Ok?
    ensures current.Some? && code in UserPermissionCodes(t, current.value.id.value)
  {
    EffectiveCodesAreUnionOfRoleGrants(t, current.value.id.value, code);
  }

  /** A guarded read never logs on success and never changes the directory. */
  lemma GuardedReadLogsOnlyDenials<T>(t: Tables, current: Option<User>, code: string, answer: Result<T>)
    requires BoundHasId(current)
    ensures var o := Guarded(t, current, code, answer);
      && (HasPermissionSpec(t, current, code) ==> o.result == answer && o.events == [])
      && (!HasPermissionSpec(t, current, code) ==> o.result.Err? && o.result.error.PermissionDenied?)
  {
  }
}
