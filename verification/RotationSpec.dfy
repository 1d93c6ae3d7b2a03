/** File rotation as a naive writer would do it: one record at a time, straight into the files.
    A file that does not exist counts as empty. */
module RotationSpec {
  import opened Text

  type Files = map<string, string>

  function LogFileName(base: string, date: string, index: nat): string {
    base + "_" + date + "_" + Decimal(index) + ".log"
  }

  function Content(files: Files, name: string): string {
    if name in files then files[name] else ""
  }

  /** The file carries the base name, an underscore, the date, and the extension that marks a log. */
  lemma FileNameParts(base: string, date: string, index: nat)
    ensures var name := LogFileName(base, date, index);
            && |name| == |base| + |date| + |Decimal(index)| + 6
            && name[..|base|] == base && name[|base|] == '_'
            && name[|base| + 1..|base| + 1 + |date|] == date && name[|base| + 1 + |date|] == '_'
            && name[|base| + |date| + 2..|name| - 4] == Decimal(index)
            && name[|name| - 4..] == ".log"
  {
  }

  /** A date and an index can be read back from the name: no two share a file. */
  lemma FileNamesDiffer(base: string, date: string, index: nat, date': string, index': nat)
    requires LogFileName(base, date, index) == LogFileName(base, date', index')
    ensures date == date' && index == index'
  {
    var name, stem, stem' := LogFileName(base, date, index), base + "_" + date, base + "_" + date';
    assert name[..|name| - 4] == stem + "_" + Decimal(index);
    assert name[..|name| - 4] == stem' + "_" + Decimal(index');
    TrailingNumeral(stem, index, stem', index');
    assert date == stem[|base| + 1..] && date' == stem'[|base| + 1..];
  }

  /** Room for `size` more bytes; an empty file takes a record of any size. */
  predicate HasRoom(content: string, size: nat, max: nat) {
    content == "" || |content| + size <= max
  }

  ghost predicate NamedFrom(name: string, base: string, date: string, index: nat) {
    exists i: nat :: index <= i && name == LogFileName(base, date, i)
  }

  /** The files that the search from `index` could still have to skip. */
  ghost function Occupied(files: Files, base: string, date: string, index: nat): set<string> {
    set name | name in files && files[name] != "" && NamedFrom(name, base, date, index)
  }

  lemma OccupiedShrinks(files: Files, base: string, date: string, index: nat)
    requires Content(files, LogFileName(base, date, index)) != ""
    ensures Occupied(files, base, date, index + 1) < Occupied(files, base, date, index)
  {
    var name := LogFileName(base, date, index);
    assert name in Occupied(files, base, date, index);
    if NamedFrom(name, base, date, index + 1) {
      var i: nat :| index + 1 <= i && name == LogFileName(base, date, i);
      FileNamesDiffer(base, date, index, date, i);
    }
  }

  /** The index the search stops at. It ends because it leaves one occupied file behind each time. */
  ghost function Seek(files: Files, base: string, date: string, index: nat, size: nat, max: nat): nat
    decreases Occupied(files, base, date, index)
  {
    if HasRoom(Content(files, LogFileName(base, date, index)), size, max) then index
    else
      OccupiedShrinks(files, base, date, index);
      Seek(files, base, date, index + 1, size, max)
  }

  lemma SeekPassesOver(files: Files, base: string, date: string, index: nat, size: nat, max: nat)
    requires !HasRoom(Content(files, LogFileName(base, date, index)), size, max)
    ensures Seek(files, base, date, index, size, max) == Seek(files, base, date, index + 1, size, max)
    ensures Occupied(files, base, date, index + 1) < Occupied(files, base, date, index)
  {
    OccupiedShrinks(files, base, date, index);
  }

  /** The search is exact: it stops at the least index that has room. */
  lemma {:induction false} SeekIsLeast(files: Files, base: string, date: string, index: nat, size: nat, max: nat)
    ensures var found := Seek(files, base, date, index, size, max);
            && index <= found
            && (var at := |Content(files, LogFileName(base, date, found))|; at == 0 || at + size <= max)
            && forall i | index <= i < found ::
                 var at := |Content(files, LogFileName(base, date, i))|; at > 0 && at + size > max
    decreases Occupied(files, base, date, index)
  {
    if !HasRoom(Content(files, LogFileName(base, date, index)), size, max) {
      OccupiedShrinks(files, base, date, index);
      SeekIsLeast(files, base, date, index + 1, size, max);
    }
  }

  // ---------------------------------------------------------------- the naive writer

  /** A record and the date read when it is written. */
  datatype Entry = Entry(record: string, today: string)

  datatype Rotor = Rotor(files: Files, date: string, index: nat)

  function Line(record: string): string {
    record + "\n"
  }

  ghost function Chosen(r: Rotor, base: string, max: nat, e: Entry): nat {
    Seek(r.files, base, e.today, if e.today != r.date then 0 else r.index, |Line(e.record)|, max)
  }

  ghost function Place(r: Rotor, base: string, max: nat, e: Entry): Rotor {
    var index := Chosen(r, base, max, e);
    var name := LogFileName(base, e.today, index);
    Rotor(r.files[name := Content(r.files, name) + Line(e.record)], e.today, index)
  }

  ghost function PlaceAll(r: Rotor, base: string, max: nat, entries: seq<Entry>): Rotor {
    if entries == [] then r
    else Place(PlaceAll(r, base, max, entries[..|entries| - 1]), base, max, entries[|entries| - 1])
  }

  lemma {:induction false} PlaceAllConcat(r: Rotor, base: string, max: nat, a: seq<Entry>, b: seq<Entry>)
    ensures PlaceAll(r, base, max, a + b) == PlaceAll(PlaceAll(r, base, max, a), base, max, b)
  {
    if b == [] {
      assert a + b == a;
    } else {
      var last := |b| - 1;
      assert (a + b)[..|a + b| - 1] == a + b[..last];
      PlaceAllConcat(r, base, max, a, b[..last]);
    }
  }

  // ---------------------------------------------------------------- what ends up where

  /** The file each entry went to. */
  ghost function Names(r: Rotor, base: string, max: nat, entries: seq<Entry>): (names: seq<string>)
    ensures |names| == |entries|
  {
    if entries == [] then []
    else
      var before := PlaceAll(r, base, max, entries[..|entries| - 1]);
      var last := entries[|entries| - 1];
      Names(r, base, max, entries[..|entries| - 1])
      + [LogFileName(base, last.today, Chosen(before, base, max, last))]
  }

  /** The lines of the entries that went to `name`, in the order of the stream. */
  function LinesFor(name: string, names: seq<string>, entries: seq<Entry>): string
    requires |names| == |entries|
  {
    if entries == [] then ""
    else
      var last := |entries| - 1;
      LinesFor(name, names[..last], entries[..last])
      + if names[last] == name then Line(entries[last].record) else ""
  }

  lemma {:induction false} NoLinesUnlessNamed(name: string, names: seq<string>, entries: seq<Entry>)
    requires |names| == |entries|
    ensures LinesFor(name, names, entries) == "" <==> name !in names
  {
    if entries != [] {
      var last := |entries| - 1;
      NoLinesUnlessNamed(name, names[..last], entries[..last]);
      assert names == names[..last] + [names[last]];
    }
  }

  /** Every file ends as it began followed by whole lines, those of the entries placed in it, in
      order. So no record is lost, split or written twice, and what was there stays. */
  lemma {:induction false} FilesHoldWholeLines(r: Rotor, base: string, max: nat, entries: seq<Entry>, name: string)
    ensures Content(PlaceAll(r, base, max, entries).files, name)
         == Content(r.files, name) + LinesFor(name, Names(r, base, max, entries), entries)
  {
    if entries != [] {
      var last := |entries| - 1;
      FilesHoldWholeLines(r, base, max, entries[..last], name);
      var names := Names(r, base, max, entries);
      assert names[..last] == Names(r, base, max, entries[..last]);
    }
  }

  /** The rotation bound: a file that was written to is within the limit, or it was empty to begin
      with and holds a single record too large for any file. */
  lemma {:induction false} RotationBound(r: Rotor, base: string, max: nat, entries: seq<Entry>, name: string)
    requires name in Names(r, base, max, entries)
    ensures var content := Content(PlaceAll(r, base, max, entries).files, name);
            || |content| <= max
            || (Content(r.files, name) == ""
                && exists i | 0 <= i < |entries| :: content == Line(entries[i].record)
                                                   && Names(r, base, max, entries)[i] == name
                                                   && |Line(entries[i].record)| > max)
  {
    var last := |entries| - 1;
    var e := entries[last];
    var names := Names(r, base, max, entries);
    var before := PlaceAll(r, base, max, entries[..last]);
    var content := Content(PlaceAll(r, base, max, entries).files, name);
    assert names[..last] == Names(r, base, max, entries[..last]);
    if names[last] == name {
      var start := if e.today != before.date then 0 else before.index;
      SeekIsLeast(before.files, base, e.today, start, |Line(e.record)|, max);
      if Content(before.files, name) == "" {
        FilesHoldWholeLines(r, base, max, entries[..last], name);
        assert content == Line(entries[last].record);
      }
    } else {
      assert name in names[..last];
      RotationBound(r, base, max, entries[..last], name);
      if |content| > max {
        var i :| 0 <= i < last && content == Line(entries[..last][i].record) && names[..last][i] == name;
        assert content == Line(entries[i].record) && names[i] == name;
      }
    }
  }

  /** Nothing is lost from a file, so it only grows. */
  lemma FilesGrow(r: Rotor, base: string, max: nat, entries: seq<Entry>, name: string)
    ensures |Content(r.files, name)| <= |Content(PlaceAll(r, base, max, entries).files, name)|
  {
    FilesHoldWholeLines(r, base, max, entries, name);
  }

  /** The files of these indices hold something, and none has room for `size` more. */
  ghost predicate AllFull(files: Files, base: string, date: string, from: nat, to: nat, size: nat, max: nat) {
    forall i | from <= i < to ::
      var content := Content(files, LogFileName(base, date, i));
      content != "" && |content| + size > max
  }

  lemma ChosenPassesFull(r: Rotor, base: string, max: nat, e: Entry)
    ensures AllFull(r.files, base, e.today, if e.today == r.date then r.index else 0, Chosen(r, base, max, e),
                    |e.record| + 1, max)
  {
    GoesToFirstFit(r, base, max, e);
  }

  /** A record goes to the first file that takes it, counted from the current index, or from 0 on a new
      date: every file passed over holds something and has no room for the record, and the file it goes
      to is empty or has room. The record is appended there and no other file changes. */
  lemma GoesToFirstFit(r: Rotor, base: string, max: nat, e: Entry)
    ensures var t := Place(r, base, max, e);
            var name := LogFileName(base, e.today, t.index);
            && t.date == e.today
            && (if e.today == r.date then r.index else 0) <= t.index
            && (forall i | (if e.today == r.date then r.index else 0) <= i < t.index ::
                  var passed := Content(r.files, LogFileName(base, e.today, i));
                  passed != "" && |passed| + |e.record| + 1 > max)
            && (Content(r.files, name) == "" || |Content(r.files, name)| + |e.record| + 1 <= max)
            && t.files == r.files[name := Content(r.files, name) + e.record + "\n"]
  {
    var start := if e.today != r.date then 0 else r.index;
    SeekIsLeast(r.files, base, e.today, start, |Line(e.record)|, max);
    var name := LogFileName(base, e.today, Place(r, base, max, e).index);
    assert Content(r.files, name) + e.record + "\n" == Content(r.files, name) + Line(e.record);
  }

  lemma SplitAt(r: Rotor, base: string, max: nat, entries: seq<Entry>, k: nat)
    requires k < |entries|
    ensures PlaceAll(r, base, max, entries[..k + 1])
         == Place(PlaceAll(r, base, max, entries[..k]), base, max, entries[k])
    ensures PlaceAll(r, base, max, entries)
         == PlaceAll(PlaceAll(r, base, max, entries[..k]), base, max, entries[k..])
  {
    assert entries[..k + 1][..k] == entries[..k];
    assert entries[..k] + entries[k..] == entries;
    PlaceAllConcat(r, base, max, entries[..k], entries[k..]);
  }

  /** Over a whole stream no file is left early: whenever record k moved past a file, that file, as it
      is in the end, holds something and could not take the record within the limit. */
  lemma NoFileLeftEarly(r: Rotor, base: string, max: nat, entries: seq<Entry>, k: nat, i: nat)
    requires k < |entries|
    requires var before := PlaceAll(r, base, max, entries[..k]);
             var after := PlaceAll(r, base, max, entries[..k + 1]);
             (if entries[k].today == before.date then before.index else 0) <= i < after.index
    ensures var left := Content(PlaceAll(r, base, max, entries).files, LogFileName(base, entries[k].today, i));
            left != "" && |left| + |entries[k].record| + 1 > max
  {
    var before := PlaceAll(r, base, max, entries[..k]);
    SplitAt(r, base, max, entries, k);
    GoesToFirstFit(before, base, max, entries[k]);
    FilesGrow(before, base, max, entries[k..], LogFileName(base, entries[k].today, i));
  }

  /** The index never goes back except with a change of date, which starts at 0 again. */
  lemma IndexGoesBackOnlyWithDate(r: Rotor, base: string, max: nat, e: Entry)
    ensures var t := Place(r, base, max, e);
            && t.date == e.today
            && (e.today == r.date ==> r.index <= t.index)
            && (forall i | (if e.today == r.date then r.index else 0) <= i < t.index ::
                  var name := LogFileName(base, e.today, i);
                  && |Content(r.files, name)| > 0 && |Content(r.files, name)| + |e.record| + 1 > max
                  && Content(t.files, name) == Content(r.files, name))
  {
    var start := if e.today != r.date then 0 else r.index;
    GoesToFirstFit(r, base, max, e);
    var t := Place(r, base, max, e);
    forall i | start <= i < t.index
      ensures Content(t.files, LogFileName(base, e.today, i)) == Content(r.files, LogFileName(base, e.today, i))
    {
      if LogFileName(base, e.today, i) == LogFileName(base, e.today, t.index) {
        FileNamesDiffer(base, e.today, i, e.today, t.index);
      }
    }
  }
}
