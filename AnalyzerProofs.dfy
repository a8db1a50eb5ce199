/**
 * What the analyzer promises about the lines the audit appender writes:
 * the parser recovers the fields the logger wrote, timestamps read back as
 * printed, and the warnings name each bucket at the threshold exactly once.
 */
module AnalyzerProofs {
  import opened Common
  import opened Audit
  import opened Analyzer

  /** A message whose tokens after the first carry no `key=` that could overwrite a field. */
  predicate NoFieldTokens(m: string) {
    forall k :: 1 <= k < |Split(m)| ==> !IsFieldToken(Split(m)[k])
  }

  lemma TrimAfterSpace(body: string)
    requires |body| > 0 && !IsTrimmable(body[0]) && !IsTrimmable(body[|body| - 1])
    ensures Trim(" " + body) == body
  {
    assert (" " + body)[1..] == body;
    assert TrimStart(" " + body) == TrimStart(body) == body;
  }

  /** The first c sits right after a c-free prefix. */
  lemma IndexOfAt(x: string, c: char, y: string)
    requires c !in x
    ensures IndexOf(x + [c] + y, c) == |x|
  {
    assert x + [c] + y == x + ([c] + y);
    IndexOfAfterPrefix(x, [c] + y, c);
    assert ([c] + y)[0] == c;
  }

  lemma NotInJoin(x: string, y: string, c: char)
    requires c !in x && c !in y
    ensures c !in x + y
  {
    assert forall i :: 0 <= i < |x + y| ==> (x + y)[i] == if i < |x| then x[i] else y[i - |x|];
  }

  /** The first space of `<ts> [<name>] <body>` ends the timestamp. */
  lemma SpaceLayout(ts: string, name: string, body: string)
    requires ' ' !in ts
    ensures var line := ts + " [" + name + "] " + body;
      IndexOf(line, ' ') == |ts| && line[..|ts|] == ts
  {
    assert ts + " [" + name + "] " + body == ts + [' '] + ("[" + name + "] " + body);
    IndexOfAt(ts, ' ', "[" + name + "] " + body);
  }

  /** The first `[` follows the space. */
  lemma OpenLayout(ts: string, name: string, body: string)
    requires '[' !in ts
    ensures IndexOf(ts + " [" + name + "] " + body, '[') == |ts| + 1
  {
    NotInJoin(ts, " ", '[');
    assert ts + " [" + name + "] " + body == (ts + " ") + ['['] + (name + "] " + body);
    IndexOfAt(ts + " ", '[', name + "] " + body);
  }

  /** The first `]` of `<head>] <body>` closes a bracket-free head. */
  lemma CloseLayout(head: string, body: string)
    requires ']' !in head
    ensures IndexOf(head + "] " + body, ']') == |head|
    ensures (head + "] " + body)[|head| + 1..] == " " + body
  {
    assert head + "] " + body == head + [']'] + (" " + body);
    IndexOfAt(head, ']', " " + body);
  }

  /** The name sits between `<ts> [` and `]`. */
  lemma NameLayout(ts: string, name: string, body: string)
    ensures (ts + " [" + name + "] " + body)[|ts| + 2..|ts| + 2 + |name|] == name
  {
    var line := ts + " [" + name + "] " + body;
    assert forall i :: 0 <= i < |name| ==> line[|ts| + 2 + i] == name[i];
  }

  /** The bracket and space positions of `<ts> [<name>] <body>`. */
  lemma LineLayout(ts: string, name: string, body: string)
    requires ' ' !in ts && '[' !in ts && ']' !in ts
    requires ' ' !in name && '[' !in name && ']' !in name
    ensures var line := ts + " [" + name + "] " + body;
      && IndexOf(line, ' ') == |ts| && line[..|ts|] == ts
      && IndexOf(line, '[') == |ts| + 1
      && IndexOf(line, ']') == |ts| + 2 + |name|
      && line[|ts| + 2..|ts| + 2 + |name|] == name
      && line[|ts| + 3 + |name|..] == " " + body
  {
    var head := ts + " [" + name;
    SpaceLayout(ts, name, body);
    OpenLayout(ts, name, body);
    NotInJoin(ts, " [", ']');
    NotInJoin(ts + " [", name, ']');
    CloseLayout(head, body);
    NameLayout(ts, name, body);
  }

  /** A `key=value` token with a plain key puts exactly that entry. */
  lemma PutToken(m: map<string, string>, key: string, value: string)
    requires key != [] && '=' !in key
    ensures Put(m, Tok(key, value)) == m[key := value]
  {
    var p := Tok(key, value);
    assert p == key + ("=" + value);
    IndexOfAfterPrefix(key, "=" + value, '=');
    assert p[..|key|] == key && p[|key| + 1..] == value;
  }

  /** Putting p's tokens and then q's is putting the tokens of p + q. */
  lemma {:induction false} FieldsFromAppend(m: map<string, string>, p: seq<string>, q: seq<string>)
    ensures FieldsFrom(m, p + q) == FieldsFrom(FieldsFrom(m, p), q)
  {
    if q == [] {
      assert p + q == p;
    } else {
      var q' := q[..|q| - 1];
      FieldsFromAppend(m, p, q');
      assert (p + q)[..|p + q| - 1] == p + q';
      assert (p + q)[|p + q| - 1] == q[|q| - 1];
    }
  }

  lemma FieldsFromOne(m: map<string, string>, x: string)
    ensures FieldsFrom(m, [x]) == Put(m, x)
  {
    var single: seq<string> := [x];
    assert single[..0] == [];
  }

  /** Tokens without a key put nothing. */
  lemma {:induction false} FieldsOfPlainTokens(m: map<string, string>, q: seq<string>)
    requires forall i :: 0 <= i < |q| ==> !IsFieldToken(q[i])
    ensures FieldsFrom(m, q) == m
  {
    if q != [] {
      FieldsOfPlainTokens(m, q[..|q| - 1]);
    }
  }

  /** A space-free word before a space is a token of its own. */
  lemma SplitCons(x: string, y: string)
    requires ' ' !in x
    ensures Split(x + " " + y) == [x] + Split(y)
  {
    SplitJoin(x, y);
    SplitWord(x);
  }

  /** Splitting `x1 x2 x3 p<m> x5` where only m may hold spaces. */
  lemma SplitFive(x1: string, x2: string, x3: string, p: string, m: string, x5: string)
    requires ' ' !in x1 && ' ' !in x2 && ' ' !in x3 && ' ' !in p && ' ' !in x5
    ensures Split(x1 + " " + (x2 + " " + (x3 + " " + ((p + m) + " " + x5))))
      == [x1] + ([x2] + ([x3] + ([p + Split(m)[0]] + Split(m)[1..] + [x5])))
  {
    var r4 := (p + m) + " " + x5;
    SplitJoin(p + m, x5);
    SplitWord(x5);
    SplitAfterWord(p, m);
    assert Split(r4) == [p + Split(m)[0]] + Split(m)[1..] + [x5];
    var tail := [p + Split(m)[0]] + Split(m)[1..] + [x5];
    var r3 := x3 + " " + r4;
    SplitCons(x3, r4);
    var r2 := x2 + " " + r3;
    SplitCons(x2, r3);
    SplitCons(x1, r2);
  }

  /** The token `key=value` as the message body writes it. */
  function Tok(key: string, value: string): string {
    key + "=" + value
  }

  /** A token of space-free key and value has no space. */
  lemma TokNoSpace(key: string, value: string)
    requires ' ' !in key && ' ' !in value
    ensures ' ' !in Tok(key, value)
  {
    NotInJoin(key, "=", ' ');
    NotInJoin(key + "=", value, ' ');
  }

  /** The message body's literal text regrouped at its separating spaces. */
  lemma BodyRegrouped(op: string, a: string, t: string, m: string, r: string)
    ensures "user=" + op + " action=" + a + " target=" + t + " msg=" + m + " result=" + r
      == ("user=" + op) + " " + (("action=" + a) + " " + (("target=" + t) + " " + (("msg=" + m) + " " + ("result=" + r))))
  {
  }

  /** The message body as space-joined tokens. */
  lemma BodyShape(e: AuditEvent)
    ensures e.Body() == Tok("user", Render(e.operator)) + " " + (Tok("action", e.action) + " " + (Tok("target", TargetText(e.target))
                          + " " + (("msg=" + e.message) + " " + Tok("result", e.result))))
  {
    var op, a, t, m, r := Render(e.operator), e.action, TargetText(e.target), e.message, e.result;
    assert e.Body() == "user=" + op + " action=" + a + " target=" + t + " msg=" + m + " result=" + r;
    BodyRegrouped(op, a, t, m, r);
    assert "user" + "=" == "user=" && "action" + "=" == "action=";
    assert "target" + "=" == "target=" && "result" + "=" == "result=";
    assert Tok("user", op) == "user=" + op && Tok("action", a) == "action=" + a;
    assert Tok("target", t) == "target=" + t && Tok("result", r) == "result=" + r;
  }

  /** The tokens of a message body: four fields, the message's later words, and the result. */
  lemma BodyTokens(e: AuditEvent)
    requires ' ' !in Render(e.operator) && ' ' !in e.action && ' ' !in TargetText(e.target) && ' ' !in e.result
    ensures var words := Split(e.message);
      Split(e.Body()) == [Tok("user", Render(e.operator))] + ([Tok("action", e.action)] + ([Tok("target", TargetText(e.target))]
                           + ([Tok("msg", words[0])] + words[1..] + [Tok("result", e.result)])))
  {
    TokNoSpace("user", Render(e.operator));
    TokNoSpace("action", e.action);
    TokNoSpace("target", TargetText(e.target));
    TokNoSpace("result", e.result);
    BodyShape(e);
    SplitFive(Tok("user", Render(e.operator)), Tok("action", e.action), Tok("target", TargetText(e.target)),
              "msg=", e.message, Tok("result", e.result));
    assert "msg=" + Split(e.message)[0] == Tok("msg", Split(e.message)[0]);
  }

  /** Five tokens around plain words put their five entries in order. */
  lemma FieldsOfFive(m: map<string, string>, u: string, ac: string, tg: string, g: string, middle: seq<string>, res: string)
    requires forall i :: 0 <= i < |middle| ==> !IsFieldToken(middle[i])
    ensures FieldsFrom(m, [u] + ([ac] + ([tg] + ([g] + middle + [res]))))
      == Put(Put(Put(Put(Put(m, u), ac), tg), g), res)
  {
    var r4 := [g] + middle + [res];
    var m1 := Put(m, u);
    var m2 := Put(m1, ac);
    var m3 := Put(m2, tg);
    var m4 := Put(m3, g);
    FieldsFromAppend(m, [u], [ac] + ([tg] + r4));
    FieldsFromOne(m, u);
    FieldsFromAppend(m1, [ac], [tg] + r4);
    FieldsFromOne(m1, ac);
    FieldsFromAppend(m2, [tg], r4);
    FieldsFromOne(m2, tg);
    FieldsFromAppend(m3, [g] + middle, [res]);
    FieldsFromAppend(m3, [g], middle);
    FieldsFromOne(m3, g);
    FieldsOfPlainTokens(m4, middle);
    FieldsFromOne(m4, res);
  }

  /** The five tokens of a message body put their five entries. */
  lemma BodyPuts(op: string, a: string, t: string, g: string, r: string)
    ensures Put(Put(Put(Put(Put(map[], Tok("user", op)), Tok("action", a)), Tok("target", t)), Tok("msg", g)), Tok("result", r))
      == map["user" := op, "action" := a, "target" := t, "msg" := g, "result" := r]
  {
    var empty: map<string, string> := map[];
    PutToken(empty, "user", op);
    var m1 := empty["user" := op];
    PutToken(m1, "action", a);
    var m2 := m1["action" := a];
    PutToken(m2, "target", t);
    var m3 := m2["target" := t];
    PutToken(m3, "msg", g);
    var m4 := m3["msg" := g];
    PutToken(m4, "result", r);
  }

  /** The field map of a message body whose message has no keyed later words. */
  lemma BodyFields(e: AuditEvent)
    requires ' ' !in Render(e.operator) && ' ' !in e.action && ' ' !in TargetText(e.target) && ' ' !in e.result
    requires NoFieldTokens(e.message)
    ensures Fields(Split(e.Body())) == map["user" := Render(e.operator), "action" := e.action, "target" := TargetText(e.target),
                                          "msg" := Split(e.message)[0], "result" := e.result]
  {
    BodyTokens(e);
    var words := Split(e.message);
    FieldsOfFive(map[], Tok("user", Render(e.operator)), Tok("action", e.action), Tok("target", TargetText(e.target)),
                 Tok("msg", words[0]), words[1..], Tok("result", e.result));
    BodyPuts(Render(e.operator), e.action, TargetText(e.target), words[0], e.result);
  }

  /** Parsing `<ts> [<name>] <body>`: the timestamp, the name as level, and the body's fields. */
  lemma ParseLayout(ts: string, name: string, body: string)
    requires ParseTimestamp(ts).Some?
    requires ' ' !in name && '[' !in name && ']' !in name
    requires |body| > 0 && !IsTrimmable(body[0]) && !IsTrimmable(body[|body| - 1])
    ensures var f := Fields(Split(body));
      ParseLine(ts + " [" + name + "] " + body)
        == Some(LogEntry(ParseTimestamp(ts).value, name, FieldOr(f, "user"), FieldOr(f, "action"),
                         FieldOr(f, "target"), FieldOr(f, "msg"), FieldOr(f, "result")))
  {
    var line := ts + " [" + name + "] " + body;
    LineLayout(ts, name, body);
    assert line[0] == ts[0];
    assert Trim(line) != [];
    TrimAfterSpace(body);
  }

  /** The five keys read back from the body's field map. */
  lemma LookupBody(op: string, a: string, t: string, g: string, r: string)
    ensures var f := map["user" := op, "action" := a, "target" := t, "msg" := g, "result" := r];
      && FieldOr(f, "user") == op && FieldOr(f, "action") == a && FieldOr(f, "target") == t
      && FieldOr(f, "msg") == g && FieldOr(f, "result") == r
  {
  }

  /** A body starts with `user=` and ends in the result, or in `=` when the result is empty. */
  lemma BodyEnds(e: AuditEvent)
    requires e.result == [] || !IsTrimmable(e.result[|e.result| - 1])
    ensures var body := e.Body(); |body| > 0 && !IsTrimmable(body[0]) && !IsTrimmable(body[|body| - 1])
  {
    var body := e.Body();
    BodyShape(e);
    assert body[0] == 'u';
    if e.result == [] {
      assert body[|body| - 1] == '=';
    } else {
      assert body[|body| - 1] == e.result[|e.result| - 1];
    }
  }

  /**
   * The parse/format round trip: parsing a line the appender writes gives
   * back the timestamp, the marker, the operator, the action, the target,
   * the message's first word and the result, provided the operator,
   * action, target and result hold no space, no later word of the message
   * looks like a field, and the result does not end in a trimmable char.
   */
  lemma ParseFormattedLine(ts: string, e: AuditEvent)
    requires ParseTimestamp(ts).Some?
    requires ' ' !in Render(e.operator) && ' ' !in e.action && ' ' !in TargetText(e.target) && ' ' !in e.result
    requires NoFieldTokens(e.message)
    requires e.result == [] || !IsTrimmable(e.result[|e.result| - 1])
    ensures ParseLine(FormatLine(ts, e)) == Some(LogEntry(ParseTimestamp(ts).value, e.marker.Name(), Render(e.operator),
                                                         e.action, TargetText(e.target), Split(e.message)[0], e.result))
  {
    var name := e.marker.Name();
    assert ' ' !in name && '[' !in name && ']' !in name;
    var body := e.Body();
    BodyEnds(e);
    ParseLayout(ts, name, body);
    BodyFields(e);
    LookupBody(Render(e.operator), e.action, TargetText(e.target), Split(e.message)[0], e.result);
  }

  /** An AUDIT_FAIL LOGIN line is counted in its user's bucket for the hour. */
  lemma FailedLoginIsCounted(ts: string, username: string, reason: string)
    requires ParseTimestamp(ts).Some?
    requires ' ' !in username && NoFieldTokens("登录失败: " + reason)
    ensures CountedBucket(FormatLine(ts, LoginFailEvent(Some(username), reason)))
      == Some(Bucket(username, TruncateToHour(ParseTimestamp(ts).value)))
  {
    ParseFormattedLine(ts, LoginFailEvent(Some(username), reason));
  }
}
