/**
 * The audit trail: every log call appends one event to an append-only
 * sequence. An event keeps the five fields of the message body and the
 * log4j marker it was written under.
 */
module Audit {
  import opened Common
  import opened Model
  import opened Session

  datatype Marker = AuditSuccess | AuditFail | AuditCritical
  {
    /** The marker's name as it appears between brackets in the log line. */
    function Name(): string {
      match this
      case AuditSuccess => "AUDIT_SUCCESS"
      case AuditFail => "AUDIT_FAIL"
      case AuditCritical => "AUDIT_CRITICAL"
    }
  }

  /** `%s` renders a null reference as "null". */
  function Render(s: Option<string>): string {
    if s.Some? then s.value else "null"
  }

  /** A null target is written as the empty string. */
  function TargetText(target: Option<string>): string {
    if target.Some? then target.value else ""
  }

  /**
   * The message body `user=<op> action=<a> target=<t> msg=<m> result=<r>`,
   * with a null target written as the empty string.
   */
  function BuildLogMessage(operator: Option<string>, action: string, target: Option<string>, message: string, result: string): (r: string)
    ensures |r| >= 5 + 8 + |result|
    ensures r[..5] == "user="
    ensures r[|r| - |result| - 8..] == " result=" + result
  {
    "user=" + Render(operator) + " action=" + action
      + " target=" + TargetText(target)
      + " msg=" + message + " result=" + result
  }

  datatype AuditEvent = AuditEvent(
    marker: Marker,
    operator: Option<string>,
    action: string,
    target: Option<string>,
    message: string,
    result: string)
  {
    function Body(): string {
      BuildLogMessage(operator, action, target, message, result)
    }
  }

  /** The name recorded as the actor of an event: the bound user's, or SYSTEM. */
  function Operator(current: Option<User>): (r: string)
    ensures current.Some? ==> r == current.value.username
    ensures current.None? ==> r == "SYSTEM"
  {
    if current.Some? then current.value.username else "SYSTEM"
  }

  function SuccessEvent(current: Option<User>, action: string, target: Option<string>, message: string): AuditEvent {
    AuditEvent(AuditSuccess, Some(Operator(current)), action, target, message, "SUCCESS")
  }

  function FailEvent(current: Option<User>, action: string, target: Option<string>, message: string): AuditEvent {
    AuditEvent(AuditFail, Some(Operator(current)), action, target, message, "FAIL")
  }

  function CriticalEvent(current: Option<User>, action: string, target: Option<string>, message: string): AuditEvent {
    AuditEvent(AuditCritical, Some(Operator(current)), action, target, message, "CRITICAL")
  }

  function LoginSuccessEvent(username: Option<string>): AuditEvent {
    AuditEvent(AuditSuccess, username, "LOGIN", username, "登录成功", "SUCCESS")
  }

  function LoginFailEvent(username: Option<string>, reason: string): AuditEvent {
    AuditEvent(AuditFail, username, "LOGIN", username, "登录失败: " + reason, "FAIL")
  }

  function LogoutEvent(username: Option<string>): AuditEvent {
    AuditEvent(AuditSuccess, username, "LOGOUT", username, "登出系统", "SUCCESS")
  }

  /** The result word each marker is written with. */
  function ResultWord(m: Marker): string {
    match m
    case AuditSuccess => "SUCCESS"
    case AuditFail => "FAIL"
    case AuditCritical => "CRITICAL"
  }

  /** Every event the logger can write carries the result word of its marker. */
  predicate Consistent(e: AuditEvent) {
    e.result == ResultWord(e.marker)
  }

  /**
   * Every constructor above yields a consistent event; a critical event is
   * recorded with result CRITICAL, never SUCCESS; the login events name the
   * same user as actor and target whatever the session holds.
   */
  lemma EventsAreConsistent(current: Option<User>, action: string, target: Option<string>, message: string, username: Option<string>)
    ensures Consistent(SuccessEvent(current, action, target, message))
    ensures Consistent(FailEvent(current, action, target, message))
    ensures Consistent(CriticalEvent(current, action, target, message))
    ensures CriticalEvent(current, action, target, message).result != "SUCCESS"
    ensures Consistent(LoginSuccessEvent(username)) && Consistent(LoginFailEvent(username, message))
    ensures Consistent(LogoutEvent(username))
    ensures LoginFailEvent(username, message).operator == LoginFailEvent(username, message).target == username
    ensures LoginSuccessEvent(username).operator == LoginSuccessEvent(username).target == username
    ensures LogoutEvent(username).operator == LogoutEvent(username).target == username
  {
  }

  /** The line the audit appender writes: `<timestamp> [<marker>] <body>`. */
  function FormatLine(timestamp: string, e: AuditEvent): (r: string)
    ensures var n := |timestamp|; var name := e.marker.Name();
      && |r| == n + |name| + 4 + |e.Body()|
      && r[..n] == timestamp && r[n..n + 2] == " [" && r[n + 2..n + 2 + |name|] == name
      && r[n + 2 + |name|..n + 4 + |name|] == "] " && r[n + 4 + |name|..] == e.Body()
  {
    LineParts(timestamp, e.marker.Name(), e.Body());
    timestamp + " [" + e.marker.Name() + "] " + e.Body()
  }

  /** Where the timestamp, the bracketed marker and the body sit in a line. */
  lemma LineParts(ts: string, name: string, body: string)
    ensures var r := ts + " [" + name + "] " + body; var n := |ts|;
      && |r| == n + |name| + 4 + |body|
      && r[..n] == ts && r[n..n + 2] == " [" && r[n + 2..n + 2 + |name|] == name
      && r[n + 2 + |name|..n + 4 + |name|] == "] " && r[n + 4 + |name|..] == body
  {
    var r := ts + " [" + name + "] " + body;
    var n := |ts|;
    assert r[..n] == ts;
    assert r[n..n + 2] == " [";
    assert r[n + 2..n + 2 + |name|] == name;
    assert r[n + 2 + |name|..n + 4 + |name|] == "] ";
    assert r[n + 4 + |name|..] == body;
  }

  /**
   * The one event a decorator logs after its delegate returns: CRITICAL
   * with the success message, or FAIL with the failure prefix followed by
   * the exception's message.
   */
  function OutcomeEvent<T>(current: Option<User>, r: Result<T>, action: string, okTarget: Option<string>, okMessage: string,
                           failTarget: Option<string>, failPrefix: string): AuditEvent {
    if r.Ok? then CriticalEvent(current, action, okTarget, okMessage)
    else FailEvent(current, action, failTarget, failPrefix + r.error.Message())
  }

  class AuditLogger {
    /** Everything logged so far, oldest first. */
    var events: seq<AuditEvent>
    /** The session the operator of a non-login event is read from. */
    const session: SessionContext

    constructor (session: SessionContext)
      ensures this.session == session && events == []
    {
      this.session := session;
      events := [];
    }

    method LogSuccess(action: string, target: Option<string>, message: string)
      modifies this
      ensures events == old(events) + [SuccessEvent(session.current, action, target, message)]
    {
      events := events + [SuccessEvent(session.current, action, target, message)];
    }

    method LogFail(action: string, target: Option<string>, message: string)
      modifies this
      ensures events == old(events) + [FailEvent(session.current, action, target, message)]
    {
      events := events + [FailEvent(session.current, action, target, message)];
    }

    method LogCritical(action: string, target: Option<string>, message: string)
      modifies this
      ensures events == old(events) + [CriticalEvent(session.current, action, target, message)]
    {
      events := events + [CriticalEvent(session.current, action, target, message)];
    }

    /** A decorator's try/catch around its delegate: logCritical on return, logFail on an exception. */
    method LogOutcome<T>(r: Result<T>, action: string, okTarget: Option<string>, okMessage: string,
                         failTarget: Option<string>, failPrefix: string)
      modifies this
      ensures events == old(events) + [OutcomeEvent(session.current, r, action, okTarget, okMessage, failTarget, failPrefix)]
    {
      if r.Ok? {
        LogCritical(action, okTarget, okMessage);
      } else {
        LogFail(action, failTarget, failPrefix + r.error.Message());
      }
    }

    method LogLoginSuccess(username: Option<string>)
      modifies this
      ensures events == old(events) + [LoginSuccessEvent(username)]
    {
      events := events + [LoginSuccessEvent(username)];
    }

    method LogLoginFail(username: Option<string>, reason: string)
      modifies this
      ensures events == old(events) + [LoginFailEvent(username, reason)]
    {
      events := events + [LoginFailEvent(username, reason)];
    }

    method LogLogout(username: Option<string>)
      modifies this
      ensures events == old(events) + [LogoutEvent(username)]
    {
      events := events + [LogoutEvent(username)];
    }
  }
}
