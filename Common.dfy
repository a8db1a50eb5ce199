/**
 * Shared vocabulary of the access-control model: optional values, results
 * carrying the source's exception hierarchy, and the few pieces of
 * java.lang.String behaviour the core relies on (trim, indexOf, split on a
 * single space, decimal rendering of integers).
 */
module Common {

  /** A Java reference that may be null. */
  datatype Option<T> = None | Some(value: T)

  /**
   * The exceptions the core throws. AuthenticationException and
   * PermissionDeniedException both extend BusinessException, so a
   * `catch (Exception e)` in a decorator sees all three alike.
   */
  datatype Error =
    | BusinessError(msg: string)
    | AuthenticationError(msg: string)
    | PermissionDenied(msg: string)
  {
    /** getMessage() */
    function Message(): string {
      msg
    }
  }

  /** A call that either returns a value or throws one of the core's exceptions. */
  datatype Result<T> = Ok(value: T) | Err(error: Error)

  /** Java's String.trim() removes every leading and trailing char <= ' '. */
  predicate IsTrimmable(c: char) {
    c <= ' '
  }

  function TrimStart(s: string): (r: string)
    ensures |r| <= |s| && r == s[|s| - |r|..]
    ensures forall i :: 0 <= i < |s| - |r| ==> IsTrimmable(s[i])
    ensures r == [] || !IsTrimmable(r[0])
  {
    if |s| > 0 && IsTrimmable(s[0]) then TrimStart(s[1..]) else s
  }

  function TrimEnd(s: string): (r: string)
    ensures |r| <= |s| && r == s[..|r|]
    ensures forall i :: |r| <= i < |s| ==> IsTrimmable(s[i])
    ensures r == [] || !IsTrimmable(r[|r| - 1])
  {
    if |s| > 0 && IsTrimmable(s[|s| - 1]) then TrimEnd(s[..|s| - 1]) else s
  }

  /** String.trim() */
  function Trim(s: string): (r: string)
    ensures r == [] <==> forall i :: 0 <= i < |s| ==> IsTrimmable(s[i])
    ensures |s| > 0 && !IsTrimmable(s[0]) && !IsTrimmable(s[|s| - 1]) ==> r == s
  {
    var front := TrimStart(s);
    assert forall i :: |s| - |front| <= i < |s| ==> s[i] == front[i - (|s| - |front|)];
    TrimEnd(front)
  }

  /** `s == null || s.trim().isEmpty()`, the blank test every service applies to its inputs. */
  predicate IsBlank(s: Option<string>) {
    s.None? || Trim(s.value) == []
  }

  /** String.indexOf(char): the first position of c, or -1. */
  function IndexOf(s: string, c: char): (r: int)
    ensures -1 <= r < |s|
    ensures r == -1 <==> c !in s
    ensures r >= 0 ==> s[r] == c && c !in s[..r]
  {
    if |s| == 0 then -1
    else if s[0] == c then 0
    else
      var k := IndexOf(s[1..], c);
      assert s[1..][..if k < 0 then 0 else k] == s[1..1 + if k < 0 then 0 else k];
      if k < 0 then -1 else k + 1
  }

  lemma {:induction false} IndexOfAfterPrefix(x: string, y: string, c: char)
    requires c !in x
    ensures IndexOf(x + y, c) == if c in y then |x| + IndexOf(y, c) else -1
  {
    if x != [] {
      assert (x + y)[1..] == x[1..] + y;
      IndexOfAfterPrefix(x[1..], y, c);
    } else {
      assert x + y == y;
    }
  }

  lemma IndexOfInPrefix(x: string, y: string, c: char)
    requires c in x
    ensures IndexOf(x + y, c) == IndexOf(x, c)
  {
    var i := IndexOf(x, c);
    var j := IndexOf(x + y, c);
    assert (x + y)[i] == c;
    assert (x + y)[..i] == x[..i];
  }

  /**
   * String.split(" ") with Java's empty pieces kept: the pieces between
   * single spaces. (Java also drops trailing empty pieces; no caller here
   * can tell the difference, since an empty piece never carries a field.)
   */
  function Split(s: string): (r: seq<string>)
    ensures |r| >= 1
  {
    if s == [] then [""]
    else
      var rest := Split(s[1..]);
      if s[0] == ' ' then [""] + rest else [[s[0]] + rest[0]] + rest[1..]
  }

  /** A char that does not occur in s occurs in none of its pieces. */
  lemma {:induction false} SplitKeepsAbsentChar(s: string, c: char)
    requires c !in s
    ensures forall k :: 0 <= k < |Split(s)| ==> c !in Split(s)[k]
  {
    if s != [] {
      assert c !in s[1..];
      SplitKeepsAbsentChar(s[1..], c);
    }
  }

  /** No piece contains the separator. */
  lemma {:induction false} SplitPiecesHaveNoSpace(s: string)
    ensures forall k :: 0 <= k < |Split(s)| ==> ' ' !in Split(s)[k]
  {
    if s != [] {
      SplitPiecesHaveNoSpace(s[1..]);
    }
  }

  /** Splitting around one joining space splits each side on its own. */
  lemma {:induction false} SplitJoin(x: string, y: string)
    ensures Split(x + " " + y) == Split(x) + Split(y)
  {
    if x == [] {
      assert x + " " + y == " " + y;
      assert (" " + y)[1..] == y;
    } else {
      assert (x + " " + y)[1..] == x[1..] + " " + y;
      SplitJoin(x[1..], y);
    }
  }

  /** A space-free prefix glues onto the first piece. */
  lemma {:induction false} SplitAfterWord(p: string, m: string)
    requires ' ' !in p
    ensures Split(p + m) == [p + Split(m)[0]] + Split(m)[1..]
  {
    if p == [] {
      var r := Split(m);
      assert p + m == m && p + r[0] == r[0];
      assert r == [r[0]] + r[1..];
    } else {
      assert (p + m)[1..] == p[1..] + m;
      SplitAfterWord(p[1..], m);
      assert [p[0]] + (p[1..] + Split(m)[0]) == p + Split(m)[0];
    }
  }

  lemma SplitWord(w: string)
    requires ' ' !in w
    ensures Split(w) == [w]
  {
    SplitAfterWord(w, []);
    assert w + [] == w;
  }

  function DigitChar(d: nat): char
    requires d < 10
  {
    "0123456789"[d]
  }

  function DigitValue(c: char): nat {
    if '0' <= c <= '9' then (c as int - '0' as int) as nat else 0
  }

  predicate IsDigit(c: char) {
    '0' <= c <= '9'
  }

  /** The value of a run of decimal digits, most significant first. */
  function DigitsValue(s: string): nat {
    if s == [] then 0 else DigitsValue(s[..|s| - 1]) * 10 + DigitValue(s[|s| - 1])
  }

  /** Integer.toString for a non-negative value: shortest decimal form. */
  function NatToString(n: nat): (r: string)
    ensures |r| > 0
    ensures forall i :: 0 <= i < |r| ==> IsDigit(r[i])
    ensures n > 0 ==> r[0] != '0'
  {
    if n < 10 then [DigitChar(n)] else NatToString(n / 10) + [DigitChar(n % 10)]
  }

  lemma {:induction false} NatToStringRoundTrip(n: nat)
    ensures DigitsValue(NatToString(n)) == n
  {
    if n >= 10 {
      NatToStringRoundTrip(n / 10);
      var s := NatToString(n);
      assert s[..|s| - 1] == NatToString(n / 10);
    }
  }

  /** String.valueOf(int): an optional minus sign, then the digits. */
  function IntToString(n: int): (r: string)
    ensures |r| > 0 && ' ' !in r && '=' !in r
    ensures forall i :: 0 < i < |r| ==> IsDigit(r[i])
  {
    if n < 0 then "-" + NatToString(-n) else NatToString(n)
  }

  function Pow10(k: nat): (r: nat)
    ensures r >= 1
  {
    if k == 0 then 1 else 10 * Pow10(k - 1)
  }

  /** The last `width` decimal digits of n, zero-padded on the left (a fixed-width field such as "MM"). */
  function FixedDigits(n: nat, width: nat): (r: string)
    ensures |r| == width
    ensures forall i :: 0 <= i < |r| ==> IsDigit(r[i])
  {
    if width == 0 then "" else FixedDigits(n / 10, width - 1) + [DigitChar(n % 10)]
  }

  /** Reading a fixed-width field back gives the value whenever it fits the width. */
  lemma {:induction false} FixedDigitsRoundTrip(n: nat, width: nat)
    requires n < Pow10(width)
    ensures DigitsValue(FixedDigits(n, width)) == n
  {
    if width > 0 {
      FixedDigitsRoundTrip(n / 10, width - 1);
      var s := FixedDigits(n, width);
      assert s[..|s| - 1] == FixedDigits(n / 10, width - 1);
    }
  }
}
