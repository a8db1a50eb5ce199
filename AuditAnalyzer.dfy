/**
 * AuditAnalyzer: reads the audit log line by line, keeps the AUDIT_FAIL
 * LOGIN entries, counts them per (user, hour) and warns for every bucket
 * whose count reaches the threshold.
 */
module Analyzer {
  import opened Common
  import opened Audit

  /** A LocalDateTime without nanoseconds. */
  datatype DateTime = DateTime(year: nat, month: nat, day: nat, hour: nat, minute: nat, second: nat)

  /** The ISO leap-year rule. */
  predicate IsLeapYear(y: nat) {
    y % 4 == 0 && (y % 100 != 0 || y % 400 == 0)
  }

  function DaysInMonth(y: nat, m: nat): (r: nat)
    requires 1 <= m <= 12
    ensures 28 <= r <= 31
    ensures r == 31 <==> m in {1, 3, 5, 7, 8, 10, 12}
  {
    if m == 2 then (if IsLeapYear(y) then 29 else 28)
    else if m == 4 || m == 6 || m == 9 || m == 11 then 30
    else 31
  }

  /** A real date and time of day: what LocalDateTime can hold. */
  predicate IsValid(dt: DateTime) {
    && dt.year >= 1 && 1 <= dt.month <= 12 && 1 <= dt.day <= DaysInMonth(dt.year, dt.month)
    && dt.hour <= 23 && dt.minute <= 59 && dt.second <= 59
  }

  /** Midnight of the day after y-m-d. */
  function NextDay(y: nat, m: nat, d: nat): (r: DateTime)
    requires y >= 1 && 1 <= m <= 12 && 1 <= d <= DaysInMonth(y, m)
    ensures IsValid(r) && r.hour == 0 && r.minute == 0 && r.second == 0
    ensures r.year == y || (r.year == y + 1 && m == 12 && r.month == 1 && r.day == 1)
  {
    if d < DaysInMonth(y, m) then DateTime(y, m, d + 1, 0, 0, 0)
    else if m < 12 then DateTime(y, m + 1, 1, 0, 0, 0)
    else DateTime(y + 1, 1, 1, 0, 0, 0)
  }

  /** Digit positions of the fixed-width pattern `yyyy-MM-dd'T'HH:mm:ss`. */
  predicate IsDigitPosition(i: int) {
    i in {0, 1, 2, 3, 5, 6, 8, 9, 11, 12, 14, 15, 17, 18}
  }

  predicate HasTimestampShape(s: string) {
    && |s| == 19
    && s[4] == '-' && s[7] == '-' && s[10] == 'T' && s[13] == ':' && s[16] == ':'
    && forall i :: 0 <= i < 19 && IsDigitPosition(i) ==> IsDigit(s[i])
  }

  /**
   * LocalDateTime.parse with the pattern `yyyy-MM-dd'T'HH:mm:ss` and the
   * default SMART resolver: every field is range-checked (year of era from
   * 1, day of month 1..31), a day past the end of its month is clamped to
   * the month's last day, and 24:00:00 is midnight of the following day.
   */
  function ParseTimestamp(s: string): (r: Option<DateTime>)
    ensures r.Some? ==> HasTimestampShape(s) && IsValid(r.value)
    ensures r.Some? ==> ' ' !in s && '[' !in s && ']' !in s
  {
    if !HasTimestampShape(s) then None
    else
      var y := DigitsValue(s[0..4]);
      var mo := DigitsValue(s[5..7]);
      var d := DigitsValue(s[8..10]);
      var h := DigitsValue(s[11..13]);
      var mi := DigitsValue(s[14..16]);
      var se := DigitsValue(s[17..19]);
      if y < 1 || mo < 1 || mo > 12 || d < 1 || d > 31 || mi > 59 || se > 59 then None
      else if h > 24 || (h == 24 && (mi != 0 || se != 0)) then None
      else
        var day := if d <= DaysInMonth(y, mo) then d else DaysInMonth(y, mo);
        assert forall i :: 0 <= i < 19 && !IsDigitPosition(i) ==> s[i] in "-T:";
        assert forall i :: 0 <= i < 19 ==> s[i] != ' ' && s[i] != '[' && s[i] != ']';
        if h == 24 then Some(NextDay(y, mo, day)) else Some(DateTime(y, mo, day, h, mi, se))
  }

  /** Year of era as `yyyy` prints it: four digits, or a sign and all digits past 9999. */
  function YearText(y: nat): string {
    if y <= 9999 then FixedDigits(y, 4) else "+" + NatToString(y)
  }

  /** The same pattern, printed. */
  function FormatTimestamp(dt: DateTime): string {
    YearText(dt.year) + "-" + FixedDigits(dt.month, 2) + "-" + FixedDigits(dt.day, 2)
      + "T" + FixedDigits(dt.hour, 2) + ":" + FixedDigits(dt.minute, 2) + ":" + FixedDigits(dt.second, 2)
  }

  /** truncatedTo(ChronoUnit.HOURS) */
  function TruncateToHour(dt: DateTime): (r: DateTime)
    ensures r.minute == 0 && r.second == 0
    ensures r.year == dt.year && r.month == dt.month && r.day == dt.day && r.hour == dt.hour
    ensures IsValid(dt) ==> IsValid(r)
  {
    dt.(minute := 0, second := 0)
  }

  /** The hour as the warning prints it: `yyyy-MM-dd HH:00`. */
  function HourText(dt: DateTime): string {
    YearText(dt.year) + "-" + FixedDigits(dt.month, 2) + "-" + FixedDigits(dt.day, 2) + " " + FixedDigits(dt.hour, 2) + ":00"
  }

  /** What parseLine extracts from a line. */
  datatype LogEntry = LogEntry(timestamp: DateTime, level: string, user: string, action: string,
                               target: string, message: string, result: string)

  /** A `key=value` token: an `=` somewhere after the first character. */
  predicate IsFieldToken(p: string) {
    IndexOf(p, '=') > 0
  }

  /**
   * fields.put for one token: a field token splits at its first `=` into a
   * non-empty key free of `=` and a value that rejoin to the token; the key
   * is added or overwritten and every other field is kept. Any other token
   * is ignored.
   */
  function Put(m: map<string, string>, p: string): (r: map<string, string>)
    ensures IsFieldToken(p) ==> var k := p[..IndexOf(p, '=')];
      && k != [] && '=' !in k && k in r && k + "=" + r[k] == p
      && r.Keys == m.Keys + {k}
      && forall other :: other in m && other != k ==> r[other] == m[other]
    ensures !IsFieldToken(p) ==> r == m
  {
    var eq := IndexOf(p, '=');
    if eq > 0 then
      assert p == p[..eq] + "=" + p[eq + 1..];
      m[p[..eq] := p[eq + 1..]]
    else m
  }

  /** The map after putting every token in order, so a later token overwrites an earlier one's key. */
  function FieldsFrom(m: map<string, string>, parts: seq<string>): map<string, string> {
    if parts == [] then m else Put(FieldsFrom(m, parts[..|parts| - 1]), parts[|parts| - 1])
  }

  /** The field map parseLine fills from the tokens. */
  function Fields(parts: seq<string>): map<string, string> {
    FieldsFrom(map[], parts)
  }

  /** getOrDefault(key, "") */
  function FieldOr(fields: map<string, string>, key: string): string {
    if key in fields then fields[key] else ""
  }

  /**
   * The part of parseLine after the timestamp: the level between the first
   * `[` and the first `]` (no entry when either is missing or `]` comes
   * first), then the fields of the space-separated tokens of the trimmed rest.
   */
  function EntryAfter(timestamp: DateTime, line: string): (r: Option<LogEntry>)
    ensures r.Some? ==> '[' in line && ']' in line && r.value.timestamp == timestamp
    ensures r.Some? ==> ']' !in r.value.level && ' ' !in r.value.user && ' ' !in r.value.action && ' ' !in r.value.result
  {
    var levelStart := IndexOf(line, '[');
    var levelEnd := IndexOf(line, ']');
    if levelStart < 0 || levelEnd < 0 || levelEnd < levelStart + 1 then None
    else
      var level := line[levelStart + 1..levelEnd];
      assert level == line[..levelEnd][levelStart + 1..];
      var parts := Split(Trim(line[levelEnd + 1..]));
      var fields := Fields(parts);
      SplitPiecesHaveNoSpace(Trim(line[levelEnd + 1..]));
      FieldsHaveNoSpace(map[], parts);
      Some(LogEntry(timestamp, level, FieldOr(fields, "user"), FieldOr(fields, "action"),
                    FieldOr(fields, "target"), FieldOr(fields, "msg"), FieldOr(fields, "result")))
  }

  /**
   * parseLine: no entry for a blank line, a line without a space, or a
   * first token that is not a timestamp; otherwise what EntryAfter finds.
   */
  function ParseLine(line: string): (r: Option<LogEntry>)
    ensures r.Some? ==> Trim(line) != [] && ' ' in line && '[' in line && ']' in line
    ensures r.Some? ==> ParseTimestamp(line[..IndexOf(line, ' ')]) == Some(r.value.timestamp)
    ensures r.Some? ==> ']' !in r.value.level && ' ' !in r.value.user && ' ' !in r.value.action && ' ' !in r.value.result
  {
    if Trim(line) == [] then None
    else
      var firstSpace := IndexOf(line, ' ');
      if firstSpace < 0 then None
      else
        var timestamp := ParseTimestamp(line[..firstSpace]);
        if timestamp.None? then None else EntryAfter(timestamp.value, line)
  }

  /** Values taken from space-split tokens contain no space. */
  lemma {:induction false} FieldsHaveNoSpace(m: map<string, string>, parts: seq<string>)
    requires forall k :: k in m ==> ' ' !in m[k]
    requires forall i :: 0 <= i < |parts| ==> ' ' !in parts[i]
    ensures forall k :: k in FieldsFrom(m, parts) ==> ' ' !in FieldsFrom(m, parts)[k]
  {
    if parts != [] {
      FieldsHaveNoSpace(m, parts[..|parts| - 1]);
      var p := parts[|parts| - 1];
      var eq := IndexOf(p, '=');
      if eq > 0 {
        assert forall c :: c in p[eq + 1..] ==> c in p;
      }
    }
  }

  /** The (user, hour) bucket a failed login is counted in. */
  datatype Bucket = Bucket(user: string, hour: DateTime)

  /** The filters of analyze: a parsed AUDIT_FAIL entry whose action is LOGIN, and its bucket. */
  function CountedBucket(line: string): (r: Option<Bucket>)
    ensures r.Some? <==>
      ParseLine(line).Some? && ParseLine(line).value.level == "AUDIT_FAIL" && ParseLine(line).value.action == "LOGIN"
    ensures r.Some? ==> r.value.user == ParseLine(line).value.user && ' ' !in r.value.user
    ensures r.Some? ==> r.value.hour.minute == 0 && r.value.hour.second == 0 && IsValid(r.value.hour)
    ensures r.Some? ==> r.value.hour == ParseLine(line).value.timestamp.(minute := 0, second := 0)
  {
    var e := ParseLine(line);
    if e.Some? && e.value.level == "AUDIT_FAIL" && e.value.action == "LOGIN"
    then Some(Bucket(e.value.user, TruncateToHour(e.value.timestamp)))
    else None
  }

  /** The bucket of every line, None for a line analyze skips. */
  function Buckets(lines: seq<string>): (bs: seq<Option<Bucket>>)
    ensures |bs| == |lines|
    ensures forall i :: 0 <= i < |lines| ==> bs[i] == CountedBucket(lines[i])
  {
    if lines == [] then [] else Buckets(lines[..|lines| - 1]) + [CountedBucket(lines[|lines| - 1])]
  }

  /** How many lines are counted failed logins in bucket b. */
  function CountIn(bs: seq<Option<Bucket>>, b: Bucket): (n: nat)
    ensures n <= |bs|
  {
    if bs == [] then 0
    else CountIn(bs[..|bs| - 1], b) + (if bs[|bs| - 1] == Some(b) then 1 else 0)
  }

  /** The grouping collector as a fold: one entry per bucket seen, holding its count so far. */
  function Tally(bs: seq<Option<Bucket>>): map<Bucket, nat> {
    if bs == [] then map[] else Bump(Tally(bs[..|bs| - 1]), bs[|bs| - 1])
  }

  /** One more line seen: its bucket's count goes up by one, starting from zero. */
  function Bump(m: map<Bucket, nat>, bucket: Option<Bucket>): map<Bucket, nat> {
    match bucket
    case None => m
    case Some(b) => m[b := (if b in m then m[b] else 0) + 1]
  }

  /** The fold holds exactly the buckets with a positive count, each with its count. */
  lemma {:induction false} TallyCounts(bs: seq<Option<Bucket>>)
    ensures forall b :: b in Tally(bs) <==> CountIn(bs, b) > 0
    ensures forall b :: b in Tally(bs) ==> Tally(bs)[b] == CountIn(bs, b)
  {
    if bs != [] {
      TallyCounts(bs[..|bs| - 1]);
    }
  }

  /** Reading one more line bumps the tally by that line's bucket. */
  lemma TallyStep(lines: seq<string>, i: nat)
    requires i < |lines|
    ensures Tally(Buckets(lines[..i + 1])) == Bump(Tally(Buckets(lines[..i])), CountedBucket(lines[i]))
  {
    assert lines[..i + 1][..i] == lines[..i];
    assert Buckets(lines[..i + 1])[..i] == Buckets(lines[..i]);
  }

  /** The buckets analyze warns about. */
  function Flagged(bs: seq<Option<Bucket>>, threshold: int): set<Bucket> {
    var counts := Tally(bs);
    set b | b in counts && counts[b] >= threshold
  }

  /** A bucket is flagged exactly when it holds a failed login and reaches the threshold. */
  lemma FlaggedMeansAtThreshold(bs: seq<Option<Bucket>>, threshold: int, b: Bucket)
    ensures b in Flagged(bs, threshold) <==> CountIn(bs, b) > 0 && CountIn(bs, b) >= threshold
  {
    TallyCounts(bs);
  }

  /** The warning naming a bucket and its count. */
  function WarningText(b: Bucket, count: nat): (r: string)
    ensures var head := "高风险：用户["; var tail := "次，可能存在暴力破解或异常登录";
      && |r| > |head| + |b.user| + |tail|
      && r[..|head|] == head && r[|head|..|head| + |b.user|] == b.user && r[|head| + |b.user|] == ']'
      && r[|r| - |tail|..] == tail
  {
    var head := "高风险：用户[";
    var tail := "次，可能存在暴力破解或异常登录";
    var mid := "]在[" + HourText(b.hour) + "]这一小时内登录失败" + NatToString(count);
    var r := head + b.user + mid + tail;
    assert r == (head + b.user) + mid + tail;
    assert r[..|head|] == head;
    assert r[|head|..|head| + |b.user|] == b.user;
    assert r[|head| + |b.user|] == mid[0];
    assert r[|r| - |tail|..] == tail;
    r
  }

  /** The warnings for buckets taken in the given order, each with its count. */
  function WarningsFor(order: seq<Bucket>, bs: seq<Option<Bucket>>): (w: seq<string>)
    ensures |w| == |order|
    ensures forall i :: 0 <= i < |order| ==> w[i] == WarningText(order[i], CountIn(bs, order[i]))
  {
    seq(|order|, i requires 0 <= i < |order| => WarningText(order[i], CountIn(bs, order[i])))
  }

  /** Adding one bucket to the order adds its warning at the end. */
  lemma WarningsForSnoc(order: seq<Bucket>, b: Bucket, bs: seq<Option<Bucket>>)
    ensures WarningsFor(order + [b], bs) == WarningsFor(order, bs) + [WarningText(b, CountIn(bs, b))]
  {
    var w := WarningsFor(order + [b], bs);
    assert w[|order|] == WarningText(b, CountIn(bs, b));
  }

  /** order lists each element of s once. */
  ghost predicate Enumerates(order: seq<Bucket>, s: set<Bucket>) {
    && (forall i, j :: 0 <= i < j < |order| ==> order[i] != order[j])
    && (forall b :: b in order <==> b in s)
  }

  /**
   * One warning per flagged bucket, in some order: the per-user HashMap is
   * iterated in no order the program fixes.
   */
  ghost predicate WarnsOncePerFlaggedBucket(warnings: seq<string>, bs: seq<Option<Bucket>>, threshold: int) {
    exists order :: Enumerates(order, Flagged(bs, threshold)) && warnings == WarningsFor(order, bs)
  }

  /** What analyze is given: the file system's answer for the log path. */
  datatype LogFile = Missing | OpenFailed(reason: Option<string>) | Lines(lines: seq<string>)

  const DefaultLogPath: string := "logs/audit.log"
  const DefaultThreshold: int := 5

  class AuditAnalyzer {
    const logPath: string
    const thresholdPerHour: int

    /** The log path and threshold read from the configuration. */
    constructor (logPath: string, thresholdPerHour: int)
      ensures this.logPath == logPath && this.thresholdPerHour == thresholdPerHour
    {
      this.logPath := logPath;
      this.thresholdPerHour := thresholdPerHour;
    }

    /** The configuration's defaults. */
    constructor Default()
      ensures logPath == DefaultLogPath && thresholdPerHour == DefaultThreshold
    {
      logPath := DefaultLogPath;
      thresholdPerHour := DefaultThreshold;
    }

    /**
     * analyze: a missing file gives its one warning, a file that cannot be
     * opened the reader's one warning; otherwise the failed logins are
     * tallied per bucket and each bucket at or above the threshold gives
     * one warning.
     */
    method Analyze(file: LogFile) returns (warnings: seq<string>)
      ensures file.Missing? ==> warnings == ["审计日志文件不存在: " + logPath]
      ensures file.OpenFailed? ==> warnings == ["读取审计日志失败: " + Render(file.reason)]
      ensures file.Lines? ==> WarnsOncePerFlaggedBucket(warnings, Buckets(file.lines), thresholdPerHour)
    {
      if file.Missing? {
        return ["审计日志文件不存在: " + logPath];
      }
      if file.OpenFailed? {
        return ["读取审计日志失败: " + Render(file.reason)];
      }
      var counts := TallyLines(file.lines);
      warnings := WarningsOver(counts, Buckets(file.lines));
    }

    /** The grouping pass: one count per (user, hour) bucket. */
    method TallyLines(lines: seq<string>) returns (counts: map<Bucket, nat>)
      ensures counts == Tally(Buckets(lines))
    {
      counts := map[];
      var i := 0;
      while i < |lines|
        invariant 0 <= i <= |lines|
        invariant counts == Tally(Buckets(lines[..i]))
      {
        TallyStep(lines, i);
        counts := Bump(counts, CountedBucket(lines[i]));
        i := i + 1;
      }
      assert lines[..i] == lines;
    }

    /** The threshold pass: one warning per bucket at or above the threshold, in the map's order. */
    method WarningsOver(counts: map<Bucket, nat>, bs: seq<Option<Bucket>>) returns (warnings: seq<string>)
      requires counts == Tally(bs)
      ensures WarnsOncePerFlaggedBucket(warnings, bs, thresholdPerHour)
    {
      TallyCounts(bs);
      warnings := [];
      var rest := counts.Keys;
      ghost var order: seq<Bucket> := [];
      while rest != {}
        invariant rest <= counts.Keys
        invariant forall b :: b in order ==> b in counts && b !in rest && counts[b] >= thresholdPerHour
        invariant forall b :: b in counts && b !in rest && counts[b] >= thresholdPerHour ==> b in order
        invariant forall i, j :: 0 <= i < j < |order| ==> order[i] != order[j]
        invariant warnings == WarningsFor(order, bs)
        decreases |rest|
      {
        var b :| b in rest;
        if counts[b] >= thresholdPerHour {
          WarningsForSnoc(order, b, bs);
          warnings := warnings + [WarningText(b, counts[b])];
          order := order + [b];
        }
        rest := rest - {b};
      }
      assert Enumerates(order, Flagged(bs, thresholdPerHour));
    }
  }
}
