/**
 * What the warnings of analyze amount to: one per bucket at the
 * threshold, the same collection whatever order the map is walked in,
 * and for a burst of identical failed logins exactly the one warning the
 * brute-force check expects.
 */
module WarningProofs {
  import opened Common
  import opened Audit
  import opened Analyzer
  import opened AnalyzerProofs
  import opened TimestampProofs

  /** A sequence without repeats has as many elements as its set. */
  lemma {:induction false} DistinctCount(order: seq<Bucket>)
    requires forall i, j :: 0 <= i < j < |order| ==> order[i] != order[j]
    ensures |set b | b in order| == |order|
  {
    if order != [] {
      var front := order[..|order| - 1];
      var last := order[|order| - 1];
      DistinctCount(front);
      assert (set b | b in order) == (set b | b in front) + {last};
      assert last !in front;
    }
  }

  /** Each element of a sequence without repeats occurs in it once. */
  lemma {:induction false} DistinctMultiplicity(order: seq<Bucket>, b: Bucket)
    requires forall i, j :: 0 <= i < j < |order| ==> order[i] != order[j]
    ensures multiset(order)[b] == if b in order then 1 else 0
  {
    if order != [] {
      var front := order[..|order| - 1];
      assert order == front + [order[|order| - 1]];
      DistinctMultiplicity(front, b);
    }
  }

  /** Warnings for an enumeration of s: one per element of s, each that element's text. */
  lemma EnumeratedWarnings(order: seq<Bucket>, s: set<Bucket>, warnings: seq<string>, bs: seq<Option<Bucket>>)
    requires Enumerates(order, s) && warnings == WarningsFor(order, bs)
    ensures |warnings| == |s|
    ensures forall b :: b in s ==> WarningText(b, CountIn(bs, b)) in warnings
    ensures forall i :: 0 <= i < |warnings| ==> exists b :: b in s && warnings[i] == WarningText(b, CountIn(bs, b))
  {
    DistinctCount(order);
    assert (set b | b in order) == s;
    forall b | b in s
      ensures WarningText(b, CountIn(bs, b)) in warnings
    {
      var i :| 0 <= i < |order| && order[i] == b;
      assert warnings[i] == WarningText(b, CountIn(bs, b));
    }
    forall i | 0 <= i < |warnings|
      ensures exists b :: b in s && warnings[i] == WarningText(b, CountIn(bs, b))
    {
      assert order[i] in order;
    }
  }

  /**
   * The warnings hold one entry per flagged bucket: as many as there are
   * flagged buckets, each flagged bucket's text among them, and every one
   * the text of some flagged bucket with its count.
   */
  lemma WarningsMatchFlagged(warnings: seq<string>, bs: seq<Option<Bucket>>, threshold: int)
    requires WarnsOncePerFlaggedBucket(warnings, bs, threshold)
    ensures var flagged := Flagged(bs, threshold);
      && |warnings| == |flagged|
      && (forall b :: b in flagged ==> WarningText(b, CountIn(bs, b)) in warnings)
      && (forall i :: 0 <= i < |warnings| ==> exists b :: b in flagged && warnings[i] == WarningText(b, CountIn(bs, b)))
  {
    var flagged := Flagged(bs, threshold);
    var order :| Enumerates(order, flagged) && warnings == WarningsFor(order, bs);
    EnumeratedWarnings(order, flagged, warnings, bs);
  }

  /** f applied to each element in turn. */
  function MapSeq(o: seq<Bucket>, f: Bucket -> string): (r: seq<string>)
    ensures |r| == |o| && forall i :: 0 <= i < |o| ==> r[i] == f(o[i])
  {
    seq(|o|, i requires 0 <= i < |o| => f(o[i]))
  }

  /** Taking out the k-th element takes one copy of it out of the multiset. */
  lemma RemoveAt<T>(s: seq<T>, k: nat)
    requires k < |s|
    ensures multiset(s[..k] + s[k + 1..]) == multiset(s) - multiset{s[k]}
  {
    assert s == s[..k] + [s[k]] + s[k + 1..];
  }

  lemma MapRemoveAt(o: seq<Bucket>, f: Bucket -> string, k: nat)
    requires k < |o|
    ensures MapSeq(o[..k] + o[k + 1..], f) == MapSeq(o, f)[..k] + MapSeq(o, f)[k + 1..]
  {
  }

  lemma MapSnoc(o: seq<Bucket>, f: Bucket -> string)
    requires o != []
    ensures MapSeq(o, f) == MapSeq(o[..|o| - 1], f) + [f(o[|o| - 1])]
  {
  }

  /** Mapping two arrangements of the same elements gives two arrangements of the same images. */
  lemma {:induction false} MapPermute(o1: seq<Bucket>, o2: seq<Bucket>, f: Bucket -> string)
    requires multiset(o1) == multiset(o2)
    ensures multiset(MapSeq(o1, f)) == multiset(MapSeq(o2, f))
  {
    if o1 != [] {
      var n := |o1| - 1;
      var x := o1[n];
      assert x in multiset(o2);
      var k :| 0 <= k < |o2| && o2[k] == x;
      RemoveAt(o1, n);
      RemoveAt(o2, k);
      assert o1[..n] + o1[n + 1..] == o1[..n];
      MapPermute(o1[..n], o2[..k] + o2[k + 1..], f);
      MapRemoveAt(o2, f, k);
      RemoveAt(MapSeq(o2, f), k);
      MapSnoc(o1, f);
    } else {
      assert o2 == [];
    }
  }

  /** Orders with the same buckets give the same warnings, up to order. */
  lemma WarningsPermute(o1: seq<Bucket>, o2: seq<Bucket>, bs: seq<Option<Bucket>>)
    requires multiset(o1) == multiset(o2)
    ensures multiset(WarningsFor(o1, bs)) == multiset(WarningsFor(o2, bs))
  {
    var f := b => WarningText(b, CountIn(bs, b));
    MapPermute(o1, o2, f);
    assert WarningsFor(o1, bs) == MapSeq(o1, f);
    assert WarningsFor(o2, bs) == MapSeq(o2, f);
  }

  /** Two enumerations of the same set list the same elements. */
  lemma EnumerationsPermute(o1: seq<Bucket>, o2: seq<Bucket>, s: set<Bucket>)
    requires Enumerates(o1, s) && Enumerates(o2, s)
    ensures multiset(o1) == multiset(o2)
  {
    forall b
      ensures multiset(o1)[b] == multiset(o2)[b]
    {
      DistinctMultiplicity(o1, b);
      DistinctMultiplicity(o2, b);
    }
  }

  /** Two runs over the same bs may list the warnings in different orders, but list the same ones. */
  lemma WarningsUpToOrder(w1: seq<string>, w2: seq<string>, bs: seq<Option<Bucket>>, threshold: int)
    requires WarnsOncePerFlaggedBucket(w1, bs, threshold)
    requires WarnsOncePerFlaggedBucket(w2, bs, threshold)
    ensures multiset(w1) == multiset(w2)
  {
    var flagged := Flagged(bs, threshold);
    var o1 :| Enumerates(o1, flagged) && w1 == WarningsFor(o1, bs);
    var o2 :| Enumerates(o2, flagged) && w2 == WarningsFor(o2, bs);
    EnumerationsPermute(o1, o2, flagged);
    WarningsPermute(o1, o2, bs);
  }

  /** n copies of the same line. */
  function Repeat(line: string, n: nat): (r: seq<string>)
    ensures |r| == n
    ensures forall i :: 0 <= i < n ==> r[i] == line
  {
    if n == 0 then [] else Repeat(line, n - 1) + [line]
  }

  /** When every line falls in the same bucket (or none), that bucket holds them all and no other holds any. */
  lemma {:induction false} CountInUniform(bs: seq<Option<Bucket>>, x: Option<Bucket>, b: Bucket)
    requires forall i :: 0 <= i < |bs| ==> bs[i] == x
    ensures CountIn(bs, b) == if x == Some(b) then |bs| else 0
  {
    if bs != [] {
      CountInUniform(bs[..|bs| - 1], x, b);
    }
  }

  /** Over lines all in bucket b, only b can be flagged, and it is once their number reaches the threshold. */
  lemma FlaggedOfUniform(bs: seq<Option<Bucket>>, b: Bucket, threshold: int)
    requires forall i :: 0 <= i < |bs| ==> bs[i] == Some(b)
    ensures Flagged(bs, threshold) == if |bs| > 0 && |bs| >= threshold then {b} else {}
  {
    forall c
      ensures c in Flagged(bs, threshold) <==> c == b && |bs| > 0 && |bs| >= threshold
    {
      FlaggedMeansAtThreshold(bs, threshold, c);
      CountInUniform(bs, Some(b), c);
    }
  }

  /** The enumeration of a singleton is that one element; of the empty set, empty. */
  lemma EnumerateAtMostOne(order: seq<Bucket>, s: set<Bucket>, b: Bucket)
    requires Enumerates(order, s) && (s == {b} || s == {})
    ensures order == if s == {} then [] else [b]
  {
    DistinctCount(order);
    assert (set c | c in order) == s;
    if s != {} {
      assert order[0] in order;
    }
  }

  /** The warnings for an enumeration of {b} or of the empty set. */
  lemma WarningsOfAtMostOne(order: seq<Bucket>, s: set<Bucket>, b: Bucket, bs: seq<Option<Bucket>>, warnings: seq<string>)
    requires Enumerates(order, s) && (s == {b} || s == {}) && warnings == WarningsFor(order, bs)
    ensures warnings == if s == {} then [] else [WarningText(b, CountIn(bs, b))]
  {
    EnumerateAtMostOne(order, s, b);
  }

  /** Lines all in bucket b: one warning naming b and their number when it reaches the threshold, none otherwise. */
  lemma WarningsOfUniform(bs: seq<Option<Bucket>>, b: Bucket, threshold: int, warnings: seq<string>)
    requires forall i :: 0 <= i < |bs| ==> bs[i] == Some(b)
    requires WarnsOncePerFlaggedBucket(warnings, bs, threshold)
    ensures |bs| > 0 && |bs| >= threshold ==> warnings == [WarningText(b, |bs|)]
    ensures |bs| == 0 || |bs| < threshold ==> warnings == []
  {
    var flagged := Flagged(bs, threshold);
    var order :| Enumerates(order, flagged) && warnings == WarningsFor(order, bs);
    FlaggedOfUniform(bs, b, threshold);
    WarningsOfAtMostOne(order, flagged, b, bs, warnings);
    CountInUniform(bs, Some(b), b);
  }

  lemma RepeatBuckets(line: string, n: nat)
    ensures forall i :: 0 <= i < n ==> Buckets(Repeat(line, n))[i] == CountedBucket(line)
  {
  }

  /** n copies of a counted line: one warning naming its bucket and n when n reaches the threshold, none otherwise. */
  lemma WarningsOfRepeat(line: string, n: nat, threshold: int, warnings: seq<string>)
    requires CountedBucket(line).Some?
    requires WarnsOncePerFlaggedBucket(warnings, Buckets(Repeat(line, n)), threshold)
    ensures n > 0 && n >= threshold ==> warnings == [WarningText(CountedBucket(line).value, n)]
    ensures n == 0 || n < threshold ==> warnings == []
  {
    RepeatBuckets(line, n);
    WarningsOfUniform(Buckets(Repeat(line, n)), CountedBucket(line).value, threshold, warnings);
  }

  /** The failed login the brute-force check writes: hacker, LOGIN, target system, message 密码错误, FAIL. */
  function HackerFailure(): AuditEvent {
    AuditEvent(AuditFail, Some("hacker"), "LOGIN", Some("system"), "密码错误", "FAIL")
  }

  /** Its line, stamped with the given time, is counted in hacker's bucket for that hour. */
  lemma HackerFailureCounted(dt: DateTime)
    requires IsValid(dt) && dt.year <= 9999
    ensures CountedBucket(FormatLine(FormatTimestamp(dt), HackerFailure())) == Some(Bucket("hacker", TruncateToHour(dt)))
  {
    TimestampRoundTrip(dt);
    SplitWord("密码错误");
    assert AuditFail.Name() == "AUDIT_FAIL";
    ParseFormattedLine(FormatTimestamp(dt), HackerFailure());
  }

  /**
   * Ten copies of that line, with the default threshold of five, give
   * exactly one warning, for hacker in that hour with the count ten;
   * four copies give none.
   */
  lemma BruteForceWarning(dt: DateTime, ten: seq<string>, four: seq<string>)
    requires IsValid(dt) && dt.year <= 9999
    requires WarnsOncePerFlaggedBucket(ten, Buckets(Repeat(FormatLine(FormatTimestamp(dt), HackerFailure()), 10)), DefaultThreshold)
    requires WarnsOncePerFlaggedBucket(four, Buckets(Repeat(FormatLine(FormatTimestamp(dt), HackerFailure()), 4)), DefaultThreshold)
    ensures ten == [WarningText(Bucket("hacker", TruncateToHour(dt)), 10)]
    ensures four == []
  {
    HackerFailureCounted(dt);
    WarningsOfRepeat(FormatLine(FormatTimestamp(dt), HackerFailure()), 10, DefaultThreshold, ten);
    WarningsOfRepeat(FormatLine(FormatTimestamp(dt), HackerFailure()), 4, DefaultThreshold, four);
  }

  /**
   * Where the hour sits in a warning: `yyyy-MM-dd HH:00`, sixteen characters,
   * whose digit fields read back as the hour's year, month, day and hour.
   */
  lemma HourTextLayout(dt: DateTime)
    requires IsValid(dt) && dt.year <= 9999
    ensures var s := HourText(dt);
      && |s| == 16 && s[4] == '-' && s[7] == '-' && s[10] == ' ' && s[13..] == ":00"
      && DigitsValue(s[0..4]) == dt.year && DigitsValue(s[5..7]) == dt.month
      && DigitsValue(s[8..10]) == dt.day && DigitsValue(s[11..13]) == dt.hour
  {
    var s := HourText(dt);
    var y, mo, d, h := FixedDigits(dt.year, 4), FixedDigits(dt.month, 2), FixedDigits(dt.day, 2), FixedDigits(dt.hour, 2);
    assert s == y + "-" + mo + "-" + d + " " + h + ":00";
    assert s[0..4] == y && s[5..7] == mo && s[8..10] == d && s[11..13] == h;
    assert Pow10(4) == 10000 && Pow10(2) == 100;
    FixedDigitsRoundTrip(dt.year, 4);
    FixedDigitsRoundTrip(dt.month, 2);
    FixedDigitsRoundTrip(dt.day, 2);
    FixedDigitsRoundTrip(dt.hour, 2);
  }
}
