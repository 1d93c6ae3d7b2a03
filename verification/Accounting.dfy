/** How the benchmark checks its own output: a marker in every payload, counted in the log files, and
    the balance attempted = delivered + dropped. */
module Accounting {
  import opened Formatting
  import opened Markers
  import opened Lifecycle
  import opened RotationSpec
  import Bench = BenchmarkRun

  // ---------------------------------------------------------------- searching and counting

  /** std::string::find: the first occurrence at or after `offset`, or None. */
  function Find(line: string, marker: string, offset: nat): Option<nat>
    decreases |line| - offset
  {
    if offset + |marker| > |line| then None
    else if line[offset..offset + |marker|] == marker then Some(offset)
    else if offset == |line| then None
    else Find(line, marker, offset + 1)
  }

  lemma {:induction false} FindIsFirst(line: string, marker: string, offset: nat)
    ensures match Find(line, marker, offset)
            case None => forall i | offset <= i :: !MarkerAt(line, marker, i)
            case Some(at) =>
              && offset <= at && MarkerAt(line, marker, at)
              && forall i | offset <= i < at :: !MarkerAt(line, marker, i)
    decreases |line| - offset
  {
    if offset + |marker| <= |line| && line[offset..offset + |marker|] != marker && offset < |line| {
      FindIsFirst(line, marker, offset + 1);
    }
  }

  /** Occurrences from left to right that do not overlap. */
  function Occurrences(line: string, marker: string, offset: nat): nat
    requires marker != ""
    decreases |line| - offset
  {
    FindIsFirst(line, marker, offset);
    match Find(line, marker, offset)
    case None => 0
    case Some(at) => 1 + Occurrences(line, marker, at + |marker|)
  }

  ghost predicate AllMarkers(line: string, marker: string, offset: nat, at: seq<nat>) {
    forall i | 0 <= i < |at| :: offset <= at[i] && MarkerAt(line, marker, at[i])
  }

  ghost predicate Apart(at: seq<nat>, width: nat) {
    forall i, j | 0 <= i < j < |at| :: at[i] + width <= at[j]
  }

  ghost predicate Touches(at: seq<nat>, width: nat, k: nat) {
    exists i | 0 <= i < |at| :: at[i] <= k < at[i] + width
  }

  ghost predicate NoneMissed(line: string, marker: string, offset: nat, at: seq<nat>) {
    forall k | offset <= k && MarkerAt(line, marker, k) :: Touches(at, |marker|, k)
  }

  lemma ApartCons(first: nat, rest: seq<nat>, width: nat)
    requires Apart(rest, width) && forall i | 0 <= i < |rest| :: first + width <= rest[i]
    ensures Apart([first] + rest, width)
  {
  }

  lemma TouchesCons(first: nat, rest: seq<nat>, width: nat, k: nat)
    requires first <= k < first + width || Touches(rest, width, k)
    ensures Touches([first] + rest, width, k)
  {
    var at := [first] + rest;
    if Touches(rest, width, k) {
      var i :| 0 <= i < |rest| && rest[i] <= k < rest[i] + width;
      assert at[i + 1] == rest[i];
    } else {
      assert at[0] == first;
    }
  }

  lemma NoneMissedCons(line: string, marker: string, offset: nat, first: nat, rest: seq<nat>)
    requires NoneMissed(line, marker, first + |marker|, rest)
    requires forall k | offset <= k < first :: !MarkerAt(line, marker, k)
    ensures NoneMissed(line, marker, offset, [first] + rest)
  {
    forall k | offset <= k && MarkerAt(line, marker, k) ensures Touches([first] + rest, |marker|, k) {
      assert k >= first;
      TouchesCons(first, rest, |marker|, k);
    }
  }

  /** The count is that of occurrences that do not overlap: there are that many places in the line, in
      order and apart from each other, where the marker stands, and wherever else it stands it overlaps
      one of them. */
  lemma {:induction false} OccurrencesAreApart(line: string, marker: string, offset: nat) returns (at: seq<nat>)
    requires marker != ""
    ensures |at| == Occurrences(line, marker, offset)
    ensures AllMarkers(line, marker, offset, at) && Apart(at, |marker|) && NoneMissed(line, marker, offset, at)
    decreases |line| - offset
  {
    FindIsFirst(line, marker, offset);
    match Find(line, marker, offset)
    case None =>
      at := [];
    case Some(first) =>
      var rest := OccurrencesAreApart(line, marker, first + |marker|);
      at := [first] + rest;
      ApartCons(first, rest, |marker|);
      NoneMissedCons(line, marker, offset, first, rest);
  }

  method CountInLine(line: string, marker: string) returns (count: nat)
    requires marker != ""
    ensures count == Occurrences(line, marker, 0)
  {
    count := 0;
    var offset := 0;
    var found := Find(line, marker, offset);
    while found.Some?
      invariant offset <= |line| && found == Find(line, marker, offset)
      invariant count + Occurrences(line, marker, offset) == Occurrences(line, marker, 0)
      decreases |line| - offset
    {
      FindIsFirst(line, marker, offset);
      count := count + 1;
      offset := found.value + |marker|;
      found := Find(line, marker, offset);
    }
  }

  /** std::getline: up to the next newline, or all that is left. */
  function NextLine(content: string, from: nat): (end: nat)
    requires from <= |content|
    ensures from <= end <= |content| && '\n' !in content[from..end]
    ensures end < |content| ==> content[end] == '\n'
    decreases |content| - from
  {
    if from == |content| || content[from] == '\n' then from else NextLine(content, from + 1)
  }

  function CountFrom(content: string, marker: string, from: nat): nat
    requires marker != "" && from <= |content|
    decreases |content| - from
  {
    if from == |content| then 0 else
      var end := NextLine(content, from);
      Occurrences(content[from..end], marker, 0)
      + if end == |content| then 0 else CountFrom(content, marker, end + 1)
  }

  method CountInFile(content: string, marker: string) returns (count: nat)
    requires marker != ""
    ensures count == CountFrom(content, marker, 0)
  {
    count := 0;
    var position := 0;
    while position < |content|
      invariant position <= |content|
      invariant count + CountFrom(content, marker, position) == CountFrom(content, marker, 0)
    {
      var end := NextLine(content, position);
      var here := CountInLine(content[position..end], marker);
      count := count + here;
      position := if end == |content| then end else end + 1;
    }
  }

  lemma MarkerInLine(prefix: string, payload: string, marker: string, own: string, i: nat)
    requires WellMarked(marker) && WellMarked(own) && own <= payload && '[' !in payload[|own|..]
    requires forall i | 0 <= i < |prefix| :: !MarkerAt(prefix, marker, i)
    ensures MarkerAt(prefix + payload, marker, i) <==> i == |prefix| && marker == own
  {
    if i < |prefix| {
      assert payload[0] == own[0];
      MarkerNotAcross(prefix, payload, marker, i);
    } else {
      MarkerAfterPrefix(prefix, payload, marker, i);
      MarkerInPayload(marker, payload, own, i - |prefix|);
    }
  }

  /** The marker is counted exactly once in a line made of a prefix without it and the payload, however
      the two meet; and a line of another run is not counted. */
  lemma CountedOncePerLine(prefix: string, payload: string, marker: string, own: string)
    requires WellMarked(marker) && WellMarked(own) && own <= payload && '[' !in payload[|own|..]
    requires forall i | 0 <= i < |prefix| :: !MarkerAt(prefix, marker, i)
    ensures Occurrences(prefix + payload, marker, 0) == if marker == own then 1 else 0
  {
    var line := prefix + payload;
    forall i: nat ensures MarkerAt(line, marker, i) <==> i == |prefix| && marker == own {
      MarkerInLine(prefix, payload, marker, own, i);
    }
    OccurrencesFromPositions(line, marker, |prefix|, marker == own);
  }

  lemma OccurrencesFromPositions(line: string, marker: string, at: nat, there: bool)
    requires marker != "" && forall i: nat :: MarkerAt(line, marker, i) <==> i == at && there
    ensures Occurrences(line, marker, 0) == if there then 1 else 0
  {
    FindIsFirst(line, marker, 0);
    if there {
      assert MarkerAt(line, marker, at);
      assert Find(line, marker, 0) == Some(at);
      FindIsFirst(line, marker, at + |marker|);
    }
  }

  lemma {:induction false} NextLineIs(content: string, from: nat, end: nat)
    requires from <= end < |content| && '\n' !in content[from..end] && content[end] == '\n'
    ensures NextLine(content, from) == end
    decreases end - from
  {
    if from < end {
      assert content[from] in content[from..end];
      assert content[from + 1..end] == content[from..end][1..];
      NextLineIs(content, from + 1, end);
    }
  }

  /** A file of whole lines. */
  predicate EndsLine(content: string) {
    content == "" || content[|content| - 1] == '\n'
  }

  lemma CountStep(content: string, marker: string, from: nat)
    requires marker != "" && from < |content| && NextLine(content, from) < |content|
    ensures CountFrom(content, marker, from)
         == Occurrences(content[from..NextLine(content, from)], marker, 0)
            + CountFrom(content, marker, NextLine(content, from) + 1)
  {
  }

  /** One more line at the end of a file of whole lines counts what is in that line. */
  lemma {:induction false} CountSnoc(content: string, line: string, marker: string, from: nat)
    requires marker != "" && '\n' !in line && EndsLine(content) && from <= |content|
    ensures CountFrom(content + (line + "\n"), marker, from)
         == CountFrom(content, marker, from) + Occurrences(line, marker, 0)
    decreases |content| - from
  {
    var whole := content + (line + "\n");
    if from == |content| {
      LastLine(content, line);
      CountStep(whole, marker, from);
    } else {
      NextLineInside(content, from);
      SameNextLine(content, line + "\n", from);
      CountStep(whole, marker, from);
      CountStep(content, marker, from);
      CountSnoc(content, line, marker, NextLine(content, from) + 1);
    }
  }

  lemma SameNextLine(content: string, more: string, from: nat)
    requires from < |content| && NextLine(content, from) < |content|
    ensures var end := NextLine(content, from);
            && NextLine(content + more, from) == end
            && (content + more)[from..end] == content[from..end]
  {
    var end := NextLine(content, from);
    assert (content + more)[from..end] == content[from..end];
    NextLineIs(content + more, from, end);
  }

  lemma LastLine(content: string, line: string)
    requires '\n' !in line
    ensures var whole := content + (line + "\n");
            var end := |content| + |line|;
            end + 1 == |whole| && whole[|content|..end] == line && NextLine(whole, |content|) == end
  {
    var whole := content + (line + "\n");
    assert whole[|content|..|content| + |line|] == line;
    NextLineIs(whole, |content|, |content| + |line|);
  }

  /** A last line that no newline ends is counted like any other. */
  lemma {:induction false} CountLastLine(content: string, last: string, marker: string, from: nat)
    requires marker != "" && '\n' !in last && last != "" && EndsLine(content) && from <= |content|
    ensures CountFrom(content + last, marker, from) == CountFrom(content, marker, from) + Occurrences(last, marker, 0)
    decreases |content| - from
  {
    var whole := content + last;
    if from == |content| {
      OnlyLine(content, last, marker);
    } else {
      NextLineInside(content, from);
      SameNextLine(content, last, from);
      CountStep(whole, marker, from);
      CountStep(content, marker, from);
      CountLastLine(content, last, marker, NextLine(content, from) + 1);
    }
  }

  lemma OnlyLine(content: string, last: string, marker: string)
    requires marker != "" && '\n' !in last && last != ""
    ensures CountFrom(content + last, marker, |content|) == Occurrences(last, marker, 0)
  {
    var whole := content + last;
    assert whole[|content|..] == last && whole[|content|..|whole|] == last;
    NoNextLine(whole, |content|);
  }

  lemma {:induction false} NoNextLine(content: string, from: nat)
    requires from <= |content| && '\n' !in content[from..]
    ensures NextLine(content, from) == |content|
    decreases |content| - from
  {
    if from < |content| {
      assert content[from] in content[from..];
      assert content[from + 1..] == content[from..][1..];
      NoNextLine(content, from + 1);
    }
  }

  lemma NextLineInside(content: string, from: nat)
    requires EndsLine(content) && from < |content|
    ensures NextLine(content, from) < |content|
  {
    assert content[from..][|content| - 1 - from] == '\n';
    assert content[from..|content|] == content[from..];
  }

  // ---------------------------------------------------------------- counting in the files of a run

  /** The sum over the files of a directory, in whatever order it is walked. */
  function CountInFiles(files: Files, names: seq<string>, marker: string): nat
    requires marker != ""
  {
    if names == [] then 0
    else
      var last := |names| - 1;
      CountInFiles(files, names[..last], marker) + CountFrom(Content(files, names[last]), marker, 0)
  }

  method InspectOutput(files: Files, names: seq<string>, marker: string) returns (delivered: nat)
    requires marker != "" && forall i | 0 <= i < |names| :: names[i] in files
    ensures delivered == CountInFiles(files, names, marker)
  {
    delivered := 0;
    for i := 0 to |names|
      invariant delivered == CountInFiles(files, names[..i], marker)
    {
      var here := CountInFile(files[names[i]], marker);
      delivered := delivered + here;
      assert names[..i + 1][..i] == names[..i];
    }
    assert names[..|names|] == names;
  }

  predicate Distinct(names: seq<string>) {
    forall i, j | 0 <= i < j < |names| :: names[i] != names[j]
  }

  lemma {:induction false} CountElsewhere(files: Files, name: string, content: string, names: seq<string>,
                                          marker: string)
    requires marker != "" && name !in names
    ensures CountInFiles(files[name := content], names, marker) == CountInFiles(files, names, marker)
  {
    if names != [] {
      CountElsewhere(files, name, content, names[..|names| - 1], marker);
    }
  }

  lemma {:induction false} CountUpdated(files: Files, name: string, content: string, names: seq<string>, marker: string)
    requires marker != "" && name in names && Distinct(names)
    ensures CountInFiles(files[name := content], names, marker) + CountFrom(Content(files, name), marker, 0)
         == CountInFiles(files, names, marker) + CountFrom(content, marker, 0)
  {
    var last := |names| - 1;
    if names[last] == name {
      CountElsewhere(files, name, content, names[..last], marker);
    } else {
      assert names == names[..last] + [names[last]];
      CountUpdated(files, name, content, names[..last], marker);
    }
  }

  lemma {:induction false} CountInNothing(files: Files, names: seq<string>, marker: string)
    requires marker != "" && forall i | 0 <= i < |names| :: Content(files, names[i]) == ""
    ensures CountInFiles(files, names, marker) == 0
  {
    if names != [] {
      CountInNothing(files, names[..|names| - 1], marker);
    }
  }

  lemma {:induction false} FilesEndLines(r: Rotor, base: string, max: nat, entries: seq<Entry>, name: string)
    requires Content(r.files, name) == ""
    ensures EndsLine(Content(PlaceAll(r, base, max, entries).files, name))
  {
    if entries != [] {
      FilesEndLines(r, base, max, entries[..|entries| - 1], name);
    }
  }

  /** Each entry is one line, with the marker in it once. */
  ghost predicate MarkedLines(entries: seq<Entry>, marker: string) {
    && marker != ""
    && forall i | 0 <= i < |entries| ::
         '\n' !in entries[i].record && Occurrences(entries[i].record, marker, 0) == 1
  }

  /** Whatever the rotation, over dates and sizes, does with a run's records, the markers counted in
      all the files together are exactly the records, if those files were empty or absent before. */
  lemma {:induction false} FilesAreCounted(r: Rotor, base: string, max: nat, entries: seq<Entry>, names: seq<string>,
                                           marker: string)
    requires MarkedLines(entries, marker) && Distinct(names)
    requires forall i | 0 <= i < |names| :: Content(r.files, names[i]) == ""
    requires forall name | name in Names(r, base, max, entries) :: name in names
    ensures CountInFiles(PlaceAll(r, base, max, entries).files, names, marker) == |entries|
  {
    if entries == [] {
      CountInNothing(r.files, names, marker);
    } else {
      var last := |entries| - 1;
      var before := PlaceAll(r, base, max, entries[..last]);
      var name := Names(r, base, max, entries)[last];
      assert name in names;
      var i :| 0 <= i < |names| && names[i] == name;
      FilesAreCounted(r, base, max, entries[..last], names, marker);
      FilesEndLines(r, base, max, entries[..last], name);
      CountSnoc(Content(before.files, name), entries[last].record, marker, 0);
      CountUpdated(before.files, name, Content(before.files, name) + Line(entries[last].record), names, marker);
    }
  }

  // ---------------------------------------------------------------- the records of a run

  /** A record of the run: it carries the run's payload. */
  predicate RecordOf(run: RunId, payloadSize: nat, calendar: int -> string, r: LogRecord) {
    && PlainRun(run)
    && PayloadOf(run, payloadSize).Some?
    && r.message == PayloadOf(run, payloadSize).value
    && PlainRecord(calendar, r)
  }

  lemma RecordIsCountedOnce(run: RunId, payloadSize: nat, calendar: int -> string, r: LogRecord)
    requires RecordOf(run, payloadSize, calendar, r)
    ensures '\n' !in LineText(calendar, r) && Occurrences(LineText(calendar, r), Marker(run), 0) == 1
  {
    var marker, prefix := Marker(run), Prefix(calendar, r);
    MarkersAreWellMarked(run);
    assert r.message[|marker|..] == Filler(payloadSize - |marker|);
    LineIsPrefixAndMessage(calendar, r);
    PrefixInOneLine(calendar, r);
    forall i | 0 <= i < |prefix| ensures !MarkerAt(prefix, marker, i) {
      MarkerNotInPrefix(calendar, r, run, i);
    }
    CountedOncePerLine(prefix, r.message, marker, marker);
  }

  /** The entries a sink writes are the formatted lines of what it was given: `written` is what each
      log() call left in its record. */
  ghost predicate Writes(run: RunId, payloadSize: nat, calendar: int -> string, written: Record -> LogRecord,
                         delivered: seq<Record>, entries: seq<Entry>)
  {
    && |entries| == |delivered|
    && forall i | 0 <= i < |entries| ::
         && RecordOf(run, payloadSize, calendar, written(delivered[i]))
         && entries[i].record == LineText(calendar, written(delivered[i]))
  }

  lemma EntriesAreMarked(run: RunId, payloadSize: nat, calendar: int -> string, written: Record -> LogRecord,
                         delivered: seq<Record>, entries: seq<Entry>)
    requires Writes(run, payloadSize, calendar, written, delivered, entries)
    ensures MarkedLines(entries, Marker(run))
  {
    forall i | 0 <= i < |entries|
      ensures '\n' !in entries[i].record && Occurrences(entries[i].record, Marker(run), 0) == 1
    {
      RecordIsCountedOnce(run, payloadSize, calendar, written(delivered[i]));
    }
  }

  // ---------------------------------------------------------------- the balance

  datatype Outcome = Rejected | Balanced(delivered: nat, dropped: nat)

  /** finalizeRun, timing aside. */
  method FinalizeRun(attempted: nat, delivered: nat, expectedDropped: Option<nat>) returns (outcome: Outcome)
    ensures outcome.Balanced? <==>
              delivered <= attempted && (expectedDropped.Some? ==> delivered + expectedDropped.value == attempted)
    ensures outcome.Balanced? ==> outcome.delivered == delivered && outcome.delivered + outcome.dropped == attempted
  {
    if delivered > attempted {
      return Rejected;
    }
    var dropped := attempted - delivered;
    if expectedDropped.Some? && expectedDropped.value != dropped {
      return Rejected;
    }
    return Balanced(delivered, dropped);
  }

  /** What the harness takes as the number of delivered records. */
  function DeliveredCount(run: RunId, files: Files, names: seq<string>): nat {
    CountInFiles(files, names, Marker(run))
  }

  /** The logs `names` of a run's directory: none was there before, and the sink wrote to no other. */
  ghost predicate NewLogs(r: Rotor, base: string, max: nat, entries: seq<Entry>, names: seq<string>) {
    && Distinct(names)
    && (forall i | 0 <= i < |names| :: Content(r.files, names[i]) == "")
    && (forall name | name in Names(r, base, max, entries) :: name in names)
  }

  /** The markers counted in the files of a run are the records its sink was given. */
  lemma DeliveredAreCounted(run: RunId, payloadSize: nat, calendar: int -> string, written: Record -> LogRecord,
                            delivered: seq<Record>, r: Rotor, base: string, max: nat, entries: seq<Entry>,
                            names: seq<string>)
    requires NewLogs(r, base, max, entries, names)
    requires Writes(run, payloadSize, calendar, written, delivered, entries)
    ensures DeliveredCount(run, PlaceAll(r, base, max, entries).files, names) == |delivered|
  {
    EntriesAreMarked(run, payloadSize, calendar, written, delivered, entries);
    FilesAreCounted(r, base, max, entries, names, Marker(run));
  }

  /** A final-drain run passes the benchmark's own check. The logger runs under OnStop; the producer
      group makes threads times messages log() calls and returns; stop() is called, and the worker
      does not fail. The file sink writes the lines of the records it was given, one by one, into a
      directory without logs, on any dates and with any rotation. Then the markers counted in the
      directory, walked in any order, and the drop counter, which the rest of stop() leaves alone,
      balance the attempts. */
  lemma FinalDrainBalances(config: Config, threads: nat, messages: nat, t: System, sink: nat,
                           run: RunId, payloadSize: nat, calendar: int -> string, written: Record -> LogRecord,
                           r: Rotor, base: string, max: nat, entries: seq<Entry>, names: seq<string>)
    requires config.flushPolicy == OnStop && !t.failed && sink < |t.sinks|
    requires Bench.CanEnd(config, threads, messages, t)
    requires NewLogs(r, base, max, entries, names)
    requires Writes(run, payloadSize, calendar, written, Delivered(t.sinks[sink]), entries)
    ensures DeliveredCount(run, PlaceAll(r, base, max, entries).files, names) + t.queue.dropped
         == threads * messages
  {
    Bench.EveryMessageAccounted(config, threads, messages, t, sink);
    DeliveredAreCounted(run, payloadSize, calendar, written, Delivered(t.sinks[sink]), r, base, max, entries, names);
  }
}
