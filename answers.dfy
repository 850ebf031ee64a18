/**
 * Naming of answer records: the handler formats the submission time as
 * `Y-MM-DDTHH:MM:SS` and stores the answers in `dir/<stamp>.json`.
 */
module Answers {
  import Format

  /** A wall-clock reading as Go's time package reports it. */
  datatype DateTime = DateTime(
    year: int,
    month: nat,
    day: nat,
    hour: nat,
    minute: nat,
    second: nat,
    nanosecond: nat)

  /** Every component printed with `%02d` fits in two digits (always so for a real clock reading). */
  predicate TwoDigitFields(t: DateTime) {
    t.month < 100 && t.day < 100 && t.hour < 100 && t.minute < 100 && t.second < 100
  }

  /** The two readings fall in the same second. */
  predicate SameSecond(t1: DateTime, t2: DateTime) {
    && t1.year == t2.year && t1.month == t2.month && t1.day == t2.day
    && t1.hour == t2.hour && t1.minute == t2.minute && t1.second == t2.second
  }

  /** The part of the stamp after the year: `-MM-DDTHH:MM:SS`. */
  function ClockSuffix(t: DateTime): string {
    "-" + Format.Pad2(t.month) + "-" + Format.Pad2(t.day)
    + "T" + Format.Pad2(t.hour) + ":" + Format.Pad2(t.minute) + ":" + Format.Pad2(t.second)
  }

  /** fmt.Sprintf("%d-%02d-%02dT%02d:%02d:%02d", year, month, day, hour, minute, second). */
  function Stamp(t: DateTime): (s: string)
    ensures '/' !in s
    ensures TwoDigitFields(t) ==> |s| == |Format.IntToString(t.year)| + 15
  {
    Format.IntToString(t.year) + ClockSuffix(t)
  }

  /** The file an answer set is written to. */
  function RecordName(dir: string, t: DateTime): (name: string)
    ensures |name| == |dir| + 1 + |Stamp(t)| + 5
    ensures name[..|dir|] == dir && name[|dir|] == '/'
    ensures name[|dir| + 1..|name| - 5] == Stamp(t) && name[|name| - 5..] == ".json"
  {
    dir + "/" + Stamp(t) + ".json"
  }

  lemma ClockSuffixLayout(t: DateTime)
    requires TwoDigitFields(t)
    ensures var c := ClockSuffix(t);
      && |c| == 15
      && c[0] == '-' && c[3] == '-' && c[6] == 'T' && c[9] == ':' && c[12] == ':'
      && c[1..3] == Format.Pad2(t.month) && c[4..6] == Format.Pad2(t.day)
      && c[7..9] == Format.Pad2(t.hour) && c[10..12] == Format.Pad2(t.minute)
      && c[13..15] == Format.Pad2(t.second)
  {
    ClockLayout(Format.Pad2(t.month), Format.Pad2(t.day), Format.Pad2(t.hour), Format.Pad2(t.minute), Format.Pad2(t.second));
  }

  lemma ClockLayout(mo: string, d: string, h: string, mi: string, s: string)
    requires |mo| == |d| == |h| == |mi| == |s| == 2
    ensures var c := "-" + mo + "-" + d + "T" + h + ":" + mi + ":" + s;
      && |c| == 15
      && c[0] == '-' && c[3] == '-' && c[6] == 'T' && c[9] == ':' && c[12] == ':'
      && c[1..3] == mo && c[4..6] == d && c[7..9] == h && c[10..12] == mi && c[13..15] == s
  {
    var c := "-" + mo + "-" + d + "T" + h + ":" + mi + ":" + s;
    assert c == ['-', mo[0], mo[1], '-', d[0], d[1], 'T', h[0], h[1], ':', mi[0], mi[1], ':', s[0], s[1]];
    assert c[1..3] == [mo[0], mo[1]] == mo;
    assert c[4..6] == [d[0], d[1]] == d;
    assert c[7..9] == [h[0], h[1]] == h;
    assert c[10..12] == [mi[0], mi[1]] == mi;
    assert c[13..15] == [s[0], s[1]] == s;
  }

  /**
   * The stamp spells out every component: the year in front, then the five
   * two-digit components at fixed offsets, separated by `-`, `-`, `T`, `:`, `:`.
   */
  lemma {:induction false} StampLayout(t: DateTime)
    requires TwoDigitFields(t)
    ensures var s, y := Stamp(t), Format.IntToString(t.year);
      && |s| == |y| + 15
      && s[..|y|] == y
      && s[|y|] == '-' && s[|y| + 3] == '-' && s[|y| + 6] == 'T' && s[|y| + 9] == ':' && s[|y| + 12] == ':'
      && Format.AllDigits(s[|y| + 1..|y| + 3]) && Format.DecimalValue(s[|y| + 1..|y| + 3]) == t.month
      && Format.AllDigits(s[|y| + 4..|y| + 6]) && Format.DecimalValue(s[|y| + 4..|y| + 6]) == t.day
      && Format.AllDigits(s[|y| + 7..|y| + 9]) && Format.DecimalValue(s[|y| + 7..|y| + 9]) == t.hour
      && Format.AllDigits(s[|y| + 10..|y| + 12]) && Format.DecimalValue(s[|y| + 10..|y| + 12]) == t.minute
      && Format.AllDigits(s[|y| + 13..|y| + 15]) && Format.DecimalValue(s[|y| + 13..|y| + 15]) == t.second
  {
    var y := Format.IntToString(t.year);
    var c := ClockSuffix(t);
    var s := Stamp(t);
    ClockSuffixLayout(t);
    assert s[|y|..] == c;
    assert s[|y| + 1..|y| + 3] == c[1..3];
    assert s[|y| + 4..|y| + 6] == c[4..6];
    assert s[|y| + 7..|y| + 9] == c[7..9];
    assert s[|y| + 10..|y| + 12] == c[10..12];
    assert s[|y| + 13..|y| + 15] == c[13..15];
    Format.Pad2RoundTrip(t.month);
    Format.Pad2RoundTrip(t.day);
    Format.Pad2RoundTrip(t.hour);
    Format.Pad2RoundTrip(t.minute);
    Format.Pad2RoundTrip(t.second);
  }

  lemma {:induction false} Pad2Injective(m: nat, n: nat)
    requires Format.Pad2(m) == Format.Pad2(n)
    ensures m == n
  {
    Format.Pad2RoundTrip(m);
    Format.Pad2RoundTrip(n);
  }

  /** The text after the last '/' of a string (all of it when there is none). */
  function AfterLastSlash(x: string): string {
    if x == [] || x[|x| - 1] == '/' then [] else AfterLastSlash(x[..|x| - 1]) + [x[|x| - 1]]
  }

  lemma {:induction false} AfterLastSlashOf(a: string, b: string)
    requires '/' !in b
    ensures AfterLastSlash(a + "/" + b) == b
    decreases |b|
  {
    var x := a + "/" + b;
    if b != [] {
      var n := |b| - 1;
      assert x[..|x| - 1] == a + "/" + b[..n];
      AfterLastSlashOf(a, b[..n]);
      assert b == b[..n] + [b[n]];
    }
  }

  /** Two strings split at their last '/' agree on both sides of it. */
  lemma {:induction false} LastSlashSplit(a: string, b: string, c: string, d: string)
    requires '/' !in b && '/' !in d
    requires a + "/" + b == c + "/" + d
    ensures a == c && b == d
  {
    var x := a + "/" + b;
    AfterLastSlashOf(a, b);
    AfterLastSlashOf(c, d);
    assert a == x[..|a|] && c == x[..|c|];
  }

  lemma ClockSuffixInjective(t1: DateTime, t2: DateTime)
    requires TwoDigitFields(t1) && TwoDigitFields(t2)
    requires ClockSuffix(t1) == ClockSuffix(t2)
    ensures t1.month == t2.month && t1.day == t2.day
    ensures t1.hour == t2.hour && t1.minute == t2.minute && t1.second == t2.second
  {
    ClockSuffixLayout(t1);
    ClockSuffixLayout(t2);
    Pad2Injective(t1.month, t2.month);
    Pad2Injective(t1.day, t2.day);
    Pad2Injective(t1.hour, t2.hour);
    Pad2Injective(t1.minute, t2.minute);
    Pad2Injective(t1.second, t2.second);
  }

  /** `dir/<year><clock>.json` determines its three parts when the clock part has a fixed length. */
  lemma NameParts(d1: string, y1: string, c1: string, d2: string, y2: string, c2: string)
    requires |c1| == |c2| && '/' !in y1 && '/' !in y2
    requires d1 + "/" + (y1 + c1) + ".json" == d2 + "/" + (y2 + c2) + ".json"
    ensures d1 == d2 && y1 == y2 && c1 == c2
  {
    var n := d1 + "/" + (y1 + c1) + ".json";
    var k := |c1| + 5;
    assert n == (d1 + "/" + y1) + (c1 + ".json");
    assert n == (d2 + "/" + y2) + (c2 + ".json");
    assert c1 + ".json" == n[|n| - k..] == c2 + ".json";
    assert c1 == (c1 + ".json")[..|c1|];
    assert c2 == (c2 + ".json")[..|c2|];
    assert d1 + "/" + y1 == n[..|n| - k] == d2 + "/" + y2;
    LastSlashSplit(d1, y1, d2, y2);
  }

  /**
   * The record name identifies the directory and the second of submission,
   * and nothing finer: names collide exactly for the same directory and the
   * same second, whatever the sub-second parts.
   */
  lemma RecordNameIdentifiesSecond(d1: string, t1: DateTime, d2: string, t2: DateTime)
    requires TwoDigitFields(t1) && TwoDigitFields(t2)
    ensures RecordName(d1, t1) == RecordName(d2, t2) <==> d1 == d2 && SameSecond(t1, t2)
  {
    if RecordName(d1, t1) == RecordName(d2, t2) {
      var y1, y2 := Format.IntToString(t1.year), Format.IntToString(t2.year);
      ClockSuffixLayout(t1);
      ClockSuffixLayout(t2);
      NameParts(d1, y1, ClockSuffix(t1), d2, y2, ClockSuffix(t2));
      Format.IntToStringInjective(t1.year, t2.year);
      ClockSuffixInjective(t1, t2);
    }
  }

  /** Two submissions in the same second, even nanoseconds apart, are written to the same file. */
  lemma SameSecondCollides(dir: string, t: DateTime, nanos: nat)
    ensures RecordName(dir, t) == RecordName(dir, t.(nanosecond := nanos))
  {
  }
}
