/** Formatting of a record into a line, with the per-second cache of the date prefix, and reading
    the line back. Timestamps are nanoseconds since the epoch. */
module Formatting {
  import opened Text

  datatype Level = DEBUG | INFO | WARN | ERROR | FATAL

  datatype LogRecord = LogRecord(
    timestamp: int, level: Level, threadHash: nat, file: string, line: int, message: string)

  function Rank(level: Level): nat {
    match level
    case DEBUG => 0
    case INFO => 1
    case WARN => 2
    case ERROR => 3
    case FATAL => 4
  }

  function LevelName(level: Level): string {
    match level
    case DEBUG => "DEBUG"
    case INFO => "INFO"
    case WARN => "WARN"
    case ERROR => "ERROR"
    case FATAL => "FATAL"
  }

  // ---------------------------------------------------------------- timestamps

  /** Division and remainder that truncate toward zero, as integer and duration casts do. */
  function Quotient(a: int, b: int): int
    requires b > 0
  {
    if a < 0 then -(-a / b) else a / b
  }

  function Remainder(a: int, b: int): int
    requires b > 0
  {
    a - Quotient(a, b) * b
  }

  function Second(timestamp: int): int {
    Quotient(timestamp, 1_000_000_000)
  }

  function Millis(timestamp: int): int {
    Remainder(Quotient(timestamp, 1_000_000), 1000)
  }

  function MillisText(millis: int): string {
    (if millis < 100 then "0" else "") + (if millis < 10 then "0" else "") + Signed(millis)
  }

  /** What an uncached formatter would print; `calendar` renders a second as local date and time. */
  function TimeText(calendar: int -> string, timestamp: int): string {
    calendar(Second(timestamp)) + "." + MillisText(Millis(timestamp))
  }

  lemma QuotientBounds(a: int, b: int)
    requires b == 1000 || b == 1_000_000
    ensures a >= 0 ==> Remainder(a, b) == a % b && Quotient(a, b) == a / b
    ensures -b < Remainder(a, b) < b
    ensures a <= 0 ==> Remainder(a, b) <= 0 && Quotient(a, b) <= 0
  {
    if b == 1000 {
      assert Remainder(a, 1000) == if a < 0 then -((-a) % 1000) else a % 1000;
    } else {
      assert Remainder(a, 1_000_000) == if a < 0 then -((-a) % 1_000_000) else a % 1_000_000;
    }
  }

  /** The second and the milliseconds of a timestamp: from the epoch on the second it falls in, and
      the whole milliseconds into it; before the epoch both are cut off toward zero. Together they are
      the timestamp in milliseconds. */
  lemma SecondAndMillis(timestamp: int)
    ensures timestamp >= 0 ==>
              && Second(timestamp) * 1_000_000_000 <= timestamp < (Second(timestamp) + 1) * 1_000_000_000
              && Second(timestamp) * 1000 + Millis(timestamp) == timestamp / 1_000_000
              && 0 <= Millis(timestamp) < 1000
    ensures timestamp < 0 ==>
              && (Second(timestamp) - 1) * 1_000_000_000 < timestamp <= Second(timestamp) * 1_000_000_000
              && Second(timestamp) * 1000 + Millis(timestamp) == -(-timestamp / 1_000_000)
              && -1000 < Millis(timestamp) <= 0
  {
    if timestamp >= 0 {
      MillisInSecond(timestamp);
    } else {
      MillisInSecond(-timestamp);
      assert Second(timestamp) == -Second(-timestamp);
      OddMillis(-timestamp);
    }
  }

  lemma MillisInSecond(timestamp: nat)
    ensures Second(timestamp) * 1_000_000_000 <= timestamp < (Second(timestamp) + 1) * 1_000_000_000
    ensures Second(timestamp) * 1000 + Millis(timestamp) == timestamp / 1_000_000
    ensures 0 <= Millis(timestamp) < 1000
  {
    var total := timestamp / 1_000_000;
    QuotientBounds(total, 1000);
    assert total / 1000 == timestamp / 1_000_000_000;
  }

  lemma OddMillis(timestamp: int)
    requires timestamp >= 0
    ensures Millis(-timestamp) == -Millis(timestamp)
  {
    var total := timestamp / 1_000_000;
    QuotientBounds(total, 1000);
    QuotientBounds(-total, 1000);
    assert Quotient(-timestamp, 1_000_000) == -total;
  }

  /** The fraction is three digits, and reads back as the milliseconds, exactly when the truncated
      millisecond count is not negative modulo 1000: for every timestamp from the epoch on, and
      before it only when that count is a whole number of seconds. */
  lemma ThreeDigitsIffNotNegative(timestamp: int)
    ensures var text := MillisText(Millis(timestamp));
            (|text| == 3 && IsNumeral(text)) <==> (timestamp > -1_000_000 || Quotient(timestamp, 1_000_000) % 1000 == 0)
    ensures timestamp >= 0 ==>
              var text := MillisText(Millis(timestamp));
              IsNumeral(text) && |text| == 3 && Value(text) == (timestamp / 1_000_000) % 1000
  {
    var total := Quotient(timestamp, 1_000_000);
    var ms := Millis(timestamp);
    QuotientBounds(timestamp, 1_000_000);
    QuotientBounds(total, 1000);
    if ms < 0 {
      NegativeMillisText(ms);
      assert total < 0;
      SignOfRemainder(total);
      assert timestamp <= -1_000_000;
    } else {
      PlainMillisText(ms);
      if total < 0 {
        SignOfRemainder(total);
      }
    }
  }

  lemma SignOfRemainder(total: int)
    requires total <= 0
    ensures Remainder(total, 1000) == 0 <==> total % 1000 == 0
  {
  }

  lemma NegativeMillisText(ms: int)
    requires -1000 < ms < 0
    ensures !IsNumeral(MillisText(ms))
  {
    assert MillisText(ms)[2] == '-';
  }

  lemma PlainMillisText(ms: nat)
    requires ms < 1000
    ensures var text := MillisText(ms); |text| == 3 && IsNumeral(text) && Value(text) == ms
  {
    DecimalRoundTrip(ms);
    var digits := Decimal(ms);
    if ms < 10 {
      LeadingZero(digits);
      LeadingZero("0" + digits);
      assert MillisText(ms) == "0" + ("0" + digits);
    } else if ms < 100 {
      assert |Decimal(ms / 10)| == 1;
      LeadingZero(digits);
      assert MillisText(ms) == "0" + digits;
    } else {
      assert |Decimal(ms / 10 / 10)| == 1 && |Decimal(ms / 10)| == 2;
      assert MillisText(ms) == digits;
    }
  }

  lemma {:induction false} LeadingZero(s: string)
    requires IsNumeral(s)
    ensures IsNumeral("0" + s) && Value("0" + s) == Value(s)
  {
    if s == [] {
      assert ("0" + s)[..0] == [];
    } else {
      LeadingZero(s[..|s| - 1]);
      assert ("0" + s)[..|s|] == "0" + s[..|s| - 1];
    }
  }

  lemma FiveMillisBefore()
    ensures MillisText(-5) == "00-5"
  {
    assert Decimal(5) == [DigitOf(5)] == "5";
    assert Signed(-5) == "-5";
  }

  lemma FiveMillis()
    ensures Millis(-5_000_000) == -5
  {
    assert Quotient(-5_000_000, 1_000_000) == -5;
    assert Quotient(-5, 1000) == 0;
  }

  /** Before the epoch the fraction can come out wrong. */
  lemma BeforeTheEpoch()
    ensures MillisText(Millis(-5_000_000)) == "00-5"
  {
    FiveMillis();
    FiveMillisBefore();
  }

  class Formatter {
    const calendar: int -> string
    var cachedSecond: int
    var cachedPrefix: string
    var hasCachedPrefix: bool

    ghost predicate Valid()
      reads this
    {
      hasCachedPrefix ==> cachedPrefix == calendar(cachedSecond)
    }

    constructor (calendar: int -> string)
      ensures Valid() && this.calendar == calendar && !hasCachedPrefix
    {
      this.calendar, cachedSecond, cachedPrefix, hasCachedPrefix := calendar, 0, "", false;
    }

    /** The cache never shows: the text is what uncached formatting gives. */
    method FormatTime(timestamp: int) returns (formatted: string)
      requires Valid()
      modifies this
      ensures Valid() && formatted == TimeText(calendar, timestamp)
      ensures forall second, ms | TimeOf(timestamp, second, ms) ::
                formatted == calendar(second) + "." + MillisText(ms)
    {
      TimeReadsBack(calendar, timestamp);
      var time := Second(timestamp);
      if !hasCachedPrefix || time != cachedSecond {
        cachedPrefix := calendar(time);
        cachedSecond := time;
        hasCachedPrefix := true;
      }
      var milliseconds := Millis(timestamp);
      formatted := cachedPrefix;
      formatted := formatted + ".";
      var padding := "";
      if milliseconds < 100 {
        padding := padding + "0";
      }
      if milliseconds < 10 {
        padding := padding + "0";
      }
      formatted := formatted + (padding + Signed(milliseconds));
    }

    method FormatMessage(record: LogRecord) returns (formatted: string)
      requires Valid()
      modifies this
      ensures Valid() && formatted == LineText(calendar, record)
    {
      var timestamp := FormatTime(record.timestamp);
      formatted := "[" + timestamp + "][" + LevelName(record.level) + "][tid:" + Decimal(record.threadHash)
                   + "][" + record.file + ":" + Signed(record.line) + "] " + record.message;
    }
  }

  function LineText(calendar: int -> string, r: LogRecord): string {
    "[" + TimeText(calendar, r.timestamp) + "][" + LevelName(r.level) + "][tid:" + Decimal(r.threadHash)
    + "][" + r.file + ":" + Signed(r.line) + "] " + r.message
  }

  // ---------------------------------------------------------------- reading a line back

  /** Seconds and milliseconds since the epoch, cut off toward zero. */
  ghost predicate TimeOf(timestamp: int, second: int, ms: int) {
    if timestamp >= 0 then second == timestamp / 1_000_000_000 && ms == timestamp / 1_000_000 % 1000
    else second == -(-timestamp / 1_000_000_000) && ms == -(-timestamp / 1_000_000 % 1000)
  }

  lemma SecondAndMillisOf(timestamp: int)
    ensures TimeOf(timestamp, Second(timestamp), Millis(timestamp))
  {
    SecondAndMillis(timestamp);
  }

  /** The text of a timestamp gives back its second, as the calendar shows it, and, from the epoch on,
      its milliseconds as the three digits after the dot. */
  lemma TimeReadsBack(calendar: int -> string, timestamp: int)
    ensures forall second, ms | TimeOf(timestamp, second, ms) ::
              TimeText(calendar, timestamp) == calendar(second) + "." + MillisText(ms)
    ensures timestamp >= 0 ==>
              var text, date := TimeText(calendar, timestamp), calendar(timestamp / 1_000_000_000);
              && |text| == |date| + 4 && text[..|date|] == date && text[|date|] == '.'
              && IsNumeral(text[|date| + 1..])
              && Value(text[|date| + 1..]) == timestamp / 1_000_000 % 1000
  {
    SecondAndMillisOf(timestamp);
    ThreeDigitsIffNotNegative(timestamp);
    if timestamp >= 0 {
      var text, date := TimeText(calendar, timestamp), calendar(timestamp / 1_000_000_000);
      assert text == date + "." + MillisText(Millis(timestamp));
      assert text[|date| + 1..] == MillisText(Millis(timestamp));
    }
  }

  /** What a line says, as text. */
  datatype Parsed =
    | Malformed
    | Parsed(time: string, level: string, threadHash: string, file: string, line: string, message: string)

  /** The text up to the first `c`, and what follows it. */
  function Cut(s: string, c: char): (string, string) {
    if s == "" then ("", "")
    else if s[0] == c then ("", s[1..])
    else var (before, after) := Cut(s[1..], c); ([s[0]] + before, after)
  }

  /** The text up to the last `c`, and what follows it. */
  function CutLast(s: string, c: char): (string, string) {
    if s == "" then ("", "")
    else if s[|s| - 1] == c then (s[..|s| - 1], "")
    else var (before, after) := CutLast(s[..|s| - 1], c); (before, after + [s[|s| - 1]])
  }

  lemma {:induction false} CutFinds(a: string, c: char, rest: string)
    requires c !in a
    ensures Cut(a + [c] + rest, c) == (a, rest)
  {
    var s := a + [c] + rest;
    if a == "" {
      assert s[1..] == rest;
    } else {
      assert s[1..] == a[1..] + [c] + rest;
      CutFinds(a[1..], c, rest);
      assert a == [a[0]] + a[1..];
    }
  }

  lemma {:induction false} CutLastFinds(a: string, c: char, rest: string)
    requires c !in rest
    ensures CutLast(a + [c] + rest, c) == (a, rest)
  {
    var s := a + [c] + rest;
    if rest == "" {
      assert s[..|s| - 1] == a;
    } else {
      var last := |rest| - 1;
      assert s[..|s| - 1] == a + [c] + rest[..last];
      CutLastFinds(a, c, rest[..last]);
      assert rest == rest[..last] + [rest[last]];
    }
  }

  function ParseLine(s: string): Parsed {
    var (time, afterTime) := Cut(s, ']');
    var (level, afterLevel) := Cut(afterTime, ']');
    var (thread, afterThread) := Cut(afterLevel, ']');
    var (place, afterPlace) := Cut(afterThread, ']');
    var (file, line) := CutLast(place, ':');
    if |time| < 1 || |level| < 1 || |thread| < 5 || |file| < 1 || |afterPlace| < 1 then Malformed
    else Parsed(time[1..], level[1..], thread[5..], file[1..], line, afterPlace[1..])
  }

  lemma NumeralsAreClean(n: nat, i: int)
    ensures ']' !in Decimal(n) && ']' !in Signed(i) && ':' !in Signed(i)
  {
    var s := Signed(i);
    assert forall k | 0 <= k < |s| :: IsDigit(s[k]) || s[k] == '-';
  }

  /** Every part of a record can be read back from its line, whatever the message, provided the
      source file's name has no ']' in it; colons in it do no harm. */
  lemma LineReadsBack(calendar: int -> string, r: LogRecord)
    requires ']' !in r.file && forall second, ms | TimeOf(r.timestamp, second, ms) :: ']' !in calendar(second)
    ensures var p := ParseLine(LineText(calendar, r));
            && p.Parsed?
            && (forall second, ms | TimeOf(r.timestamp, second, ms) ::
                  p.time == calendar(second) + "." + MillisText(ms))
            && (r.timestamp >= 0 ==>
                  var date := calendar(r.timestamp / 1_000_000_000);
                  && |p.time| == |date| + 4 && p.time[..|date|] == date && p.time[|date|] == '.'
                  && IsNumeral(p.time[|date| + 1..])
                  && Value(p.time[|date| + 1..]) == r.timestamp / 1_000_000 % 1000)
            && (p.level == "DEBUG" <==> r.level == DEBUG) && (p.level == "INFO" <==> r.level == INFO)
            && (p.level == "WARN" <==> r.level == WARN) && (p.level == "ERROR" <==> r.level == ERROR)
            && (p.level == "FATAL" <==> r.level == FATAL)
            && IsNumeral(p.threadHash) && Value(p.threadHash) == r.threadHash
            && p.file == r.file
            && IsSigned(p.line) && SignedValue(p.line) == r.line
            && p.message == r.message
  {
    SecondAndMillisOf(r.timestamp);
    PartsReadBack(calendar, r);
    TimeReadsBack(calendar, r.timestamp);
    DecimalRoundTrip(r.threadHash);
    SignedRoundTrip(r.line);
  }

  lemma PartsReadBack(calendar: int -> string, r: LogRecord)
    requires ']' !in calendar(Second(r.timestamp)) && ']' !in r.file
    ensures ParseLine(LineText(calendar, r))
         == Parsed(TimeText(calendar, r.timestamp), LevelName(r.level), Decimal(r.threadHash), r.file,
                   Signed(r.line), r.message)
  {
    var time, level := "[" + TimeText(calendar, r.timestamp), "[" + LevelName(r.level);
    var thread := "[tid:" + Decimal(r.threadHash);
    var file, line, message := "[" + r.file, Signed(r.line), " " + r.message;
    NumeralsAreClean(r.threadHash, Millis(r.timestamp));
    NumeralsAreClean(r.threadHash, r.line);
    LineParts(TimeText(calendar, r.timestamp), LevelName(r.level), Decimal(r.threadHash), r.file, line, r.message);
    CutsApart(time, level, thread, file, line, message);
  }

  function Assembled(time: string, level: string, thread: string, place: string, message: string): string {
    time + [']'] + (level + [']'] + (thread + [']'] + (place + [']'] + message)))
  }

  lemma LineParts(time: string, level: string, thread: string, file: string, line: string, message: string)
    ensures "[" + time + "][" + level + "][tid:" + thread + "][" + file + ":" + line + "] " + message
         == Assembled("[" + time, "[" + level, "[tid:" + thread, "[" + file + [':'] + line, " " + message)
  {
  }

  lemma CutsApart(time: string, level: string, thread: string, file: string, line: string, message: string)
    requires ']' !in time && ']' !in level && ']' !in thread && ']' !in file && ']' !in line && ':' !in line
    requires |time| >= 1 && |level| >= 1 && |thread| >= 5 && |file| >= 1 && |message| >= 1
    ensures ParseLine(Assembled(time, level, thread, file + [':'] + line, message))
         == Parsed(time[1..], level[1..], thread[5..], file[1..], line, message[1..])
  {
    var place := file + [':'] + line;
    var afterThread := place + [']'] + message;
    var afterLevel := thread + [']'] + afterThread;
    var afterTime := level + [']'] + afterLevel;
    CutFinds(time, ']', afterTime);
    CutFinds(level, ']', afterLevel);
    CutFinds(thread, ']', afterThread);
    CutFinds(place, ']', message);
    CutLastFinds(file, ':', line);
  }
}
