/** The markers by which the benchmark recognizes its own records: each run's marker differs from
    every other run's, and occurs in a log line only where the payload puts it. */
module Markers {
  import opened Text
  import opened Formatting
  import opened Lifecycle

  predicate MarkerAt(line: string, marker: string, i: nat) {
    i + |marker| <= |line| && line[i..i + |marker|] == marker
  }

  // ---------------------------------------------------------------- markers and payloads

  /** What a marker looks like: it opens with its only '[', ends with its only ']', in one line. */
  ghost predicate WellMarked(marker: string) {
    && |marker| >= 2
    && marker[0] == '[' && marker[|marker| - 1] == ']'
    && '[' !in marker[1..] && ']' !in marker[..|marker| - 1]
    && '\n' !in marker
  }

  function Filler(count: nat): string {
    seq(count, _ => 'x')
  }

  /** What sets one run apart: the clock's count and the process-wide sequence number, among others. */
  datatype RunId = RunId(library: string, profile: string, phase: string, runIndex: nat, timestamp: int, sequence: nat)

  function Suffix(run: RunId): string {
    run.phase + "_" + Decimal(run.runIndex) + "_" + Signed(run.timestamp) + "_" + Decimal(run.sequence)
  }

  function Marker(run: RunId): (marker: string)
    ensures marker != ""
  {
    "[benchmark:" + run.library + ":" + run.profile + ":" + Suffix(run) + "]"
  }

  /** The payload of a run, or None when the option leaves no room for the marker. */
  function PayloadOf(run: RunId, payloadSize: nat): Option<string> {
    if |Marker(run)| > payloadSize then None else Some(Marker(run) + Filler(payloadSize - |Marker(run)|))
  }

  /** A run has a payload if and only if its marker fits; the payload is as long as asked for, begins with
      the marker, and is filled up with x. */
  lemma PayloadFillsSize(run: RunId, payloadSize: nat)
    ensures PayloadOf(run, payloadSize).Some? <==> |Marker(run)| <= payloadSize
    ensures PayloadOf(run, payloadSize).Some? ==>
              var payload := PayloadOf(run, payloadSize).value;
              && |payload| == payloadSize && Marker(run) <= payload
              && forall i | |Marker(run)| <= i < payloadSize :: payload[i] == 'x'
  {
  }

  predicate PlainName(name: string) {
    '[' !in name && ']' !in name && '\n' !in name
  }

  predicate PlainRun(run: RunId) {
    PlainName(run.library) && PlainName(run.profile) && PlainName(run.phase) && ':' !in run.phase
  }

  lemma MarkersAreWellMarked(run: RunId)
    requires PlainRun(run)
    ensures WellMarked(Marker(run))
  {
    BodyIsPlain(run);
    MarkerIsBracketed(run);
    Bracketed(Body(run));
  }

  lemma BodyIsPlain(run: RunId)
    requires PlainRun(run)
    ensures PlainName(Body(run))
  {
    SuffixIsPlain(run);
    PlainJoin("benchmark:" + run.library + ":" + run.profile + ":", Suffix(run));
  }

  lemma PlainJoin(a: string, b: string)
    requires PlainName(a) && PlainName(b)
    ensures PlainName(a + b)
  {
  }

  lemma SignedIsClean(n: int)
    ensures forall c | c in Signed(n) :: IsDigit(c) || c == '-'
  {
    var s := Signed(n);
    assert forall k | 0 <= k < |s| :: IsDigit(s[k]) || s[k] == '-';
  }

  lemma SuffixIsPlain(run: RunId)
    requires PlainRun(run)
    ensures PlainName(Suffix(run)) && ':' !in Suffix(run)
  {
    SignedIsClean(run.runIndex);
    SignedIsClean(run.timestamp);
    SignedIsClean(run.sequence);
  }

  /** What stands between a marker's brackets. */
  function Body(run: RunId): string {
    "benchmark:" + run.library + ":" + run.profile + ":" + Suffix(run)
  }

  lemma MarkerIsBracketed(run: RunId)
    ensures Marker(run) == ['['] + Body(run) + [']']
  {
  }

  lemma Bracketed(body: string)
    requires PlainName(body)
    ensures WellMarked(['['] + body + [']'])
  {
    var marker := ['['] + body + [']'];
    assert marker[1..] == body + [']'] && marker[..|marker| - 1] == ['['] + body;
  }

  /** The process-wide sequence number makes every run's marker its own. */
  lemma MarkersDiffer(run: RunId, other: RunId)
    requires run.sequence != other.sequence
    ensures Marker(run) != Marker(other)
  {
    if Marker(run) == Marker(other) {
      MarkerStem(run);
      MarkerStem(other);
      TrailingNumeral(Stem(run), run.sequence, Stem(other), other.sequence);
    }
  }

  /** A marker up to its sequence number. */
  function Stem(run: RunId): string {
    "[benchmark:" + run.library + ":" + run.profile + ":"
    + (run.phase + "_" + Decimal(run.runIndex) + "_" + Signed(run.timestamp))
  }

  lemma MarkerStem(run: RunId)
    ensures Marker(run)[..|Marker(run)| - 1] == Stem(run) + "_" + Decimal(run.sequence)
  {
  }

  lemma SameEnd(a: string, b: string, text: string)
    requires WellMarked(a) && WellMarked(b) && a <= text && b <= text
    ensures a == b
  {
    NotShorter(a, b, text);
    NotShorter(b, a, text);
  }

  lemma NotShorter(a: string, b: string, text: string)
    requires WellMarked(a) && WellMarked(b) && a <= text && b <= text
    ensures |a| >= |b|
  {
    NoEarlyClose(b);
    assert a == text[..|a|] && b == text[..|b|];
    assert text[|a| - 1] == ']';
  }

  lemma NoEarlyClose(b: string)
    requires WellMarked(b)
    ensures forall k | 0 <= k < |b| - 1 :: b[k] != ']'
  {
    forall k | 0 <= k < |b| - 1 ensures b[k] != ']' {
      assert b[..|b| - 1][k] == b[k];
    }
  }

  lemma OnlyBracketAtStart(payload: string, other: string)
    requires WellMarked(other) && other <= payload && '[' !in payload[|other|..]
    ensures forall i | 0 < i < |payload| :: payload[i] != '['
  {
    forall i | 0 < i < |payload| ensures payload[i] != '[' {
      if i < |other| {
        assert payload[i] == other[1..][i - 1];
      } else {
        assert payload[i] == payload[|other|..][i - |other|];
      }
    }
  }

  /** A well-formed marker occurs in `marker' + filler` only at the start, and only if it is that
      marker. */
  lemma MarkerInPayload(marker: string, payload: string, other: string, i: nat)
    requires WellMarked(marker) && WellMarked(other)
    requires other <= payload && '[' !in payload[|other|..]
    ensures MarkerAt(payload, marker, i) <==> i == 0 && marker == other
  {
    OnlyBracketAtStart(payload, other);
    if MarkerAt(payload, marker, i) {
      assert payload[i] == marker[0] == '[';
      assert marker == payload[..|marker|];
      SameEnd(marker, other, payload);
    }
  }

  /** No occurrence straddles the end of the prefix: it would have the payload's '[' inside it. */
  lemma MarkerNotAcross(prefix: string, payload: string, marker: string, i: nat)
    requires WellMarked(marker) && payload != "" && payload[0] == '[' && i < |prefix|
    requires !MarkerAt(prefix, marker, i)
    ensures !MarkerAt(prefix + payload, marker, i)
  {
    var line := prefix + payload;
    if i + |marker| <= |prefix| {
      assert line[i..i + |marker|] == prefix[i..i + |marker|];
    } else if i + |marker| <= |line| {
      var k := |prefix| - i;
      assert line[i..i + |marker|][k] == '[';
      assert marker[k] == marker[1..][k - 1];
    }
  }

  lemma MarkerAfterPrefix(prefix: string, payload: string, marker: string, i: nat)
    requires |prefix| <= i
    ensures MarkerAt(prefix + payload, marker, i) <==> MarkerAt(payload, marker, i - |prefix|)
  {
    var line := prefix + payload;
    var k := i - |prefix|;
    if i + |marker| <= |line| {
      assert line[i..i + |marker|] == payload[k..k + |marker|];
    }
  }

  // ---------------------------------------------------------------- the prefix of a formatted line

  /** All of a formatted line but the message. */
  function Prefix(calendar: int -> string, r: LogRecord): string {
    Group(TimeText(calendar, r.timestamp))
    + (Group(LevelName(r.level)) + (Group("tid:" + Decimal(r.threadHash)) + (Group(Place(r)) + " ")))
  }

  function Group(text: string): string {
    ['['] + text + [']']
  }

  function Place(r: LogRecord): string {
    r.file + [':'] + Signed(r.line)
  }

  lemma LineIsPrefixAndMessage(calendar: int -> string, r: LogRecord)
    ensures LineText(calendar, r) == Prefix(calendar, r) + r.message
  {
    var time, level, thread := TimeText(calendar, r.timestamp), LevelName(r.level), Decimal(r.threadHash);
    LineParts(time, level, thread, r.file, Signed(r.line), r.message);
    assert Group(time) == "[" + time + "]" && Group(level) == "[" + level + "]";
    assert Group("tid:" + thread) == "[tid:" + thread + "]";
    assert Group(Place(r)) + " " + r.message == "[" + r.file + ":" + Signed(r.line) + "]" + (" " + r.message);
  }

  /** A bracketed text can only be found at the start of another, and only if they are the same. */
  lemma PassGroup(text: string, rest: string, body: string, i: nat)
    requires PlainName(body) && '[' !in text && ']' !in text && text != body
    requires MarkerAt(Group(text) + rest, Group(body), i)
    ensures i >= |text| + 2 && MarkerAt(rest, Group(body), i - |text| - 2)
  {
    var line, marker := Group(text) + rest, Group(body);
    assert line[i] == marker[0] == '[';
    assert forall k | 0 < k < |text| + 2 :: line[k] == (text + [']'])[k - 1];
    if i == 0 {
      SameGroup(text, rest, body);
    } else {
      assert line[i..i + |marker|] == rest[i - |text| - 2..i - |text| - 2 + |marker|];
    }
  }

  lemma SameGroup(text: string, rest: string, body: string)
    requires PlainName(body) && ']' !in text && MarkerAt(Group(text) + rest, Group(body), 0)
    ensures text == body
  {
    CutFinds(text, ']', rest);
    var line := Group(text) + rest;
    var after := line[|body| + 2..];
    assert line == Group(body) + after;
    CutFinds(body, ']', after);
    assert line[1..] == text + [']'] + rest && line[1..] == body + [']'] + after;
  }

  lemma PlaceIsPlain(r: LogRecord)
    requires '[' !in r.file && ']' !in r.file
    ensures '[' !in Place(r) && ']' !in Place(r)
  {
    var line := Signed(r.line);
    assert forall k | 0 <= k < |line| :: IsDigit(line[k]) || line[k] == '-';
  }

  lemma PlaceIsNoMarker(r: LogRecord, before: string, suffix: string)
    requires ':' !in suffix && '_' in suffix
    ensures Place(r) != before + [':'] + suffix
  {
    var line := Signed(r.line);
    NumeralsAreClean(0, r.line);
    CutLastFinds(r.file, ':', line);
    CutLastFinds(before, ':', suffix);
    assert forall k | 0 <= k < |line| :: IsDigit(line[k]) || line[k] == '-';
  }

  predicate Passable(text: string, body: string) {
    '[' !in text && ']' !in text && text != body
  }

  lemma TimeIsPassable(calendar: int -> string, r: LogRecord, body: string)
    requires PlainName(calendar(Second(r.timestamp))) && '_' !in calendar(Second(r.timestamp)) && '_' in body
    ensures Passable(TimeText(calendar, r.timestamp), body)
  {
    var ms := MillisText(Millis(r.timestamp));
    assert forall k | 0 <= k < |ms| :: IsDigit(ms[k]) || ms[k] == '-';
    assert '[' !in ms && ']' !in ms && '_' !in ms;
  }

  lemma LevelAndThreadArePassable(r: LogRecord, body: string)
    requires '_' in body
    ensures Passable(LevelName(r.level), body) && Passable("tid:" + Decimal(r.threadHash), body)
  {
    var digits := Decimal(r.threadHash);
    assert '[' !in digits && ']' !in digits && '_' !in digits;
    assert '[' !in LevelName(r.level) && ']' !in LevelName(r.level) && '_' !in LevelName(r.level);
  }

  lemma NotInGroups(time: string, level: string, thread: string, place: string, body: string, i: nat)
    requires PlainName(body)
    requires Passable(time, body) && Passable(level, body) && Passable(thread, body) && Passable(place, body)
    ensures !MarkerAt(Group(time) + (Group(level) + (Group(thread) + (Group(place) + " "))), Group(body), i)
  {
    var fromPlace := Group(place) + " ";
    var fromThread := Group(thread) + fromPlace;
    if MarkerAt(Group(time) + (Group(level) + fromThread), Group(body), i) {
      PassGroup(time, Group(level) + fromThread, body, i);
      PassGroup(level, fromThread, body, i - |time| - 2);
      PassGroup(thread, fromPlace, body, i - |time| - |level| - 4);
      PassGroup(place, " ", body, i - |time| - |level| - |thread| - 6);
    }
  }

  lemma BodyFacts(run: RunId)
    requires PlainRun(run)
    ensures PlainName(Body(run)) && '_' in Body(run) && forall r :: Place(r) != Body(run)
  {
    var before, suffix := "benchmark:" + run.library + ":" + run.profile, Suffix(run);
    SuffixIsPlain(run);
    assert Body(run) == before + [':'] + suffix;
    assert suffix[|run.phase|] == '_';
    assert Body(run)[|before| + 1 + |run.phase|] == '_';
    forall r ensures Place(r) != Body(run) {
      PlaceIsNoMarker(r, before, suffix);
    }
  }

  /** What the calendar prints, and the name of the source file, hold no brackets. */
  predicate PlainRecord(calendar: int -> string, r: LogRecord) {
    && PlainName(calendar(Second(r.timestamp))) && '_' !in calendar(Second(r.timestamp))
    && PlainName(r.file)
  }

  /** A run's marker does not occur in what the logger puts before the message, even if the source
      file's name imitates one. */
  lemma MarkerNotInPrefix(calendar: int -> string, r: LogRecord, run: RunId, i: nat)
    requires PlainRun(run) && PlainRecord(calendar, r)
    ensures !MarkerAt(Prefix(calendar, r), Marker(run), i)
  {
    MarkerIsBracketed(run);
    BodyFacts(run);
    TimeIsPassable(calendar, r, Body(run));
    LevelAndThreadArePassable(r, Body(run));
    PlaceIsPlain(r);
    var time, level, thread := TimeText(calendar, r.timestamp), LevelName(r.level), "tid:" + Decimal(r.threadHash);
    NotInGroups(time, level, thread, Place(r), Body(run), i);
  }

  lemma PrefixInOneLine(calendar: int -> string, r: LogRecord)
    requires PlainRecord(calendar, r)
    ensures '\n' !in Prefix(calendar, r)
  {
    SignedIsClean(Millis(r.timestamp));
    SignedIsClean(r.threadHash);
    SignedIsClean(r.line);
    assert '\n' !in TimeText(calendar, r.timestamp) && '\n' !in LevelName(r.level);
  }
}
