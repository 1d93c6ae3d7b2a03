/** The rotating file sink as the object the program mutates: a batch buffer, an output stream that
    buffers in turn, a cached file size in 64-bit arithmetic, and files that may already exist. */
module FileSinkClass {
  import opened RotationSpec
  import opened Sizes

  newtype SizeT = n: int | 0 <= n <= SIZE_MAX

  /** No file is longer than the size type can tell. */
  ghost predicate SizesFit(files: Files) {
    forall name | name in files :: |files[name]| <= SIZE_MAX
  }

  function Extended(files: Files, name: string, text: string): Files {
    files[name := Content(files, name) + text]
  }

  lemma ExtendedTwice(files: Files, name: string, a: string, b: string)
    ensures Extended(Extended(files, name, a), name, b) == Extended(files, name, a + b)
  {
    assert Content(files, name) + a + b == Content(files, name) + (a + b);
  }

  lemma ExtendedByNothing(files: Files, name: string)
    ensures Extended(files, name, "") == files[name := Content(files, name)]
    ensures name in files ==> Extended(files, name, "") == files
  {
    assert Content(files, name) + "" == Content(files, name);
  }

  lemma OccupiedStays(files: Files, name: string)
    requires Content(files, name) != ""
    ensures files[name := Content(files, name)] == files
  {
  }

  class FileSystem {
    var files: Files

    method FileSize(name: string) returns (size: SizeT)
      requires SizesFit(files)
      ensures size as int == |Content(files, name)|
    {
      size := if name in files then |files[name]| as SizeT else 0;
    }

    /** Opening for appending creates the file if there is none. */
    method OpenForAppend(name: string)
      modifies this
      ensures files == old(files)[name := Content(old(files), name)]
    {
      if name !in files {
        files := files[name := ""];
      }
    }

    method Append(name: string, text: string)
      requires name in files
      modifies this
      ensures files == Extended(old(files), name, text)
    {
      files := files[name := files[name] + text];
    }
  }

  class FileSink {
    const fs: FileSystem
    const basePath: string
    const maxFileSize: SizeT
    var currentDate: string
    var pending: string
    var currentSize: SizeT
    var fileIndex: nat
    var openName: string  // the file out_ is open on
    var buffered: string  // written to out_, not yet in the file
    var isOpen: bool      // out_.is_open()

    /** The files as they will be once the stream's buffer is in them. */
    ghost function Written(): Files
      reads this, fs
    {
      Extended(fs.files, openName, buffered)
    }

    /** The files as they will be once all that has been taken in is in them. */
    ghost function View(): Files
      reads this, fs
    {
      Extended(Written(), openName, pending)
    }

    ghost function Abs(): Rotor
      reads this, fs
    {
      Rotor(View(), currentDate, fileIndex)
    }

    /** What is pending belongs to the open file, and the cached size is that of the file as it will
        be. */
    ghost predicate Valid()
      reads this, fs
    {
      && maxFileSize > 0
      && openName == LogFileName(basePath, currentDate, fileIndex)
      && openName in fs.files
      && currentSize as int == |fs.files[openName]| + |buffered| + |pending|
      && SizesFit(View())
      && (!isOpen ==> buffered == "")
    }

    constructor (fs: FileSystem, basePath: string, maxFileSize: SizeT, today: string)
      requires basePath != "" && maxFileSize > 0 && SizesFit(fs.files)
      modifies fs
      ensures Valid() && this.fs == fs && this.basePath == basePath && this.maxFileSize == maxFileSize
      ensures isOpen && pending == "" && currentDate == today && fileIndex == 0
      ensures var name := LogFileName(basePath, today, 0);
              View() == old(fs.files)[name := Content(old(fs.files), name)]
    {
      this.fs, this.basePath, this.maxFileSize := fs, basePath, maxFileSize;
      currentDate, pending, fileIndex, buffered := today, "", 0, "";
      var name := LogFileName(basePath, today, 0);
      openName := name;
      currentSize, isOpen := 0, true;
      new;
      currentSize := fs.FileSize(name);
      fs.OpenForAppend(name);
      ExtendedByNothing(fs.files, name);
    }

    /** out_.write: the stream may pass any part of its buffer on to the file. */
    method WriteOut(text: string)
      requires openName in fs.files
      modifies this`buffered, fs
      ensures openName in fs.files
      ensures Written() == Extended(old(Written()), openName, text)
    {
      ExtendedTwice(fs.files, openName, buffered, text);
      buffered := buffered + text;
      var spilled :| 0 <= spilled <= |buffered|;
      ExtendedTwice(fs.files, openName, buffered[..spilled], buffered[spilled..]);
      assert buffered[..spilled] + buffered[spilled..] == buffered;
      fs.Append(openName, buffered[..spilled]);
      buffered := buffered[spilled..];
    }

    method FlushPending()
      requires Valid() && isOpen
      modifies this`pending, this`buffered, fs
      ensures Valid() && pending == "" && View() == old(View())
    {
      if pending == "" {
        return;
      }
      WriteOut(pending);
      pending := "";
      ExtendedByNothing(Written(), openName);
      assert |Content(View(), openName)| == currentSize as int;
    }

    method Flush()
      requires Valid()
      modifies this`buffered, fs
      ensures Valid() && buffered == "" && View() == old(View())
      ensures pending == "" ==> fs.files == View()
    {
      if !isOpen {
        FilesAreView();
        return;
      }
      fs.Append(openName, buffered);
      buffered := "";
      FilesAreView();
    }

    method Close()
      requires Valid()
      modifies this`buffered, this`isOpen, fs
      ensures Valid() && !isOpen && View() == old(View())
      ensures pending == "" ==> fs.files == View()
    {
      Flush();
      isOpen := false;
    }

    lemma FilesAreView()
      requires openName in fs.files && buffered == ""
      ensures Written() == fs.files
      ensures pending == "" ==> View() == fs.files
    {
      ExtendedByNothing(fs.files, openName);
    }

    /** Reads the size of the next file before it closes the current one: they are different files. */
    method OpenNewLogFile()
      requires SizesFit(View()) && openName in fs.files && pending == "" && (!isOpen ==> buffered == "")
      requires LogFileName(basePath, currentDate, fileIndex) != openName && maxFileSize > 0
      modifies this`openName, this`buffered, this`currentSize, this`isOpen, fs
      ensures Valid() && isOpen
      ensures View() == old(View())[openName := Content(old(View()), openName)]
      ensures currentSize as int == |Content(old(View()), openName)|
    {
      var filename := LogFileName(basePath, currentDate, fileIndex);
      ghost var was := Written();
      ExtendedByNothing(was, openName);
      assert View() == was && Content(was, filename) == Content(fs.files, filename);
      assert SizesFit(fs.files) by {
        assert forall name | name in fs.files :: |fs.files[name]| <= |was[name]|;
      }
      var existingSize := fs.FileSize(filename);
      fs.OpenForAppend(filename);
      if isOpen {
        fs.Append(openName, buffered);
      } else {
        ExtendedByNothing(old(fs.files), openName);
      }
      openName, buffered, isOpen, currentSize := filename, "", true, existingSize;
      assert fs.files == was[filename := Content(was, filename)];
      ExtendedByNothing(fs.files, filename);
    }

    lemma CachedSize()
      requires Valid()
      ensures currentSize as int == |Content(View(), openName)|
    {
    }

    /** The date has changed: what is pending belongs to the old file, and the new date starts at 0. */
    method StartDate(today: string)
      requires Valid() && isOpen && today != currentDate
      modifies this, fs
      ensures Valid() && isOpen && currentDate == today && fileIndex == 0
      ensures View() == old(View())[openName := Content(old(View()), openName)]
    {
      FlushPending();
      if LogFileName(basePath, today, 0) == openName {
        FileNamesDiffer(basePath, today, 0, currentDate, fileIndex);
      }
      currentDate := today;
      fileIndex := 0;
      OpenNewLogFile();
    }

    method NextFile()
      requires Valid() && isOpen
      modifies this, fs
      ensures Valid() && isOpen && currentDate == old(currentDate) && fileIndex == old(fileIndex) + 1
      ensures View() == old(View())[openName := Content(old(View()), openName)]
    {
      FlushPending();
      if LogFileName(basePath, currentDate, fileIndex + 1) == openName {
        FileNamesDiffer(basePath, currentDate, fileIndex + 1, currentDate, fileIndex);
      }
      fileIndex := fileIndex + 1;
      OpenNewLogFile();
    }

    /** What the loop below does when it finds the open file full. */
    lemma SkipsFull(was: Files, today: string, appendSize: SizeT)
      requires openName == LogFileName(basePath, today, fileIndex)
      requires currentSize as int == |Content(was, openName)| && currentSize > 0
      requires appendSize > maxFileSize || currentSize > maxFileSize - appendSize
      ensures was[openName := Content(was, openName)] == was
      ensures var size, max := appendSize as int, maxFileSize as int;
              Seek(was, basePath, today, fileIndex, size, max) == Seek(was, basePath, today, fileIndex + 1, size, max)
      ensures Occupied(was, basePath, today, fileIndex + 1) < Occupied(was, basePath, today, fileIndex)
    {
      OccupiedStays(was, openName);
      SeekPassesOver(was, basePath, today, fileIndex, appendSize as int, maxFileSize as int);
    }

    /** The loop: on to the next index as long as the open file is full. */
    method SkipFullFiles(appendSize: SizeT, ghost was: Files)
      requires Valid() && isOpen && appendSize > 0
      requires View() == was[openName := Content(was, openName)]
      modifies this, fs
      ensures Valid() && isOpen && currentDate == old(currentDate)
      ensures View() == was[openName := Content(was, openName)]
      ensures fileIndex == Seek(was, basePath, currentDate, old(fileIndex), appendSize as int, maxFileSize as int)
      ensures currentSize == 0 || currentSize as int + appendSize as int <= maxFileSize as int
    {
      ghost var size, max := appendSize as int, maxFileSize as int;
      ghost var today, start := currentDate, fileIndex;
      CachedSize();
      while currentSize > 0 && (appendSize > maxFileSize || currentSize > maxFileSize - appendSize)
        invariant Valid() && isOpen && currentDate == today
        invariant View() == was[openName := Content(was, openName)]
        invariant currentSize as int == |Content(was, openName)|
        invariant Seek(was, basePath, today, start, size, max) == Seek(was, basePath, today, fileIndex, size, max)
        decreases Occupied(was, basePath, today, fileIndex)
      {
        SkipsFull(was, today, appendSize);
        NextFile();
        CachedSize();
      }
    }

    /** Ends on the file the naive writer would choose, with whatever was pending written to the file
        it belongs to, and no file changed but for creating the chosen one. Every file passed over was
        too full for the record. */
    method RollIfNeeded(record: string, today: string)
      requires Valid() && isOpen && |record| < SIZE_MAX
      modifies this, fs
      ensures Valid() && isOpen && currentDate == today
      ensures fileIndex == Chosen(old(Abs()), basePath, maxFileSize as int, Entry(record, today))
      ensures AllFull(old(View()), basePath, today, if today == old(currentDate) then old(fileIndex) else 0, fileIndex,
                      |record| + 1, maxFileSize as int)
      ensures View() == old(View())[openName := Content(old(View()), openName)]
      ensures currentSize == 0 || currentSize as int + |record| + 1 <= maxFileSize as int
    {
      ghost var was, rotor := View(), Abs();
      if today != currentDate {
        StartDate(today);
      }
      var appendSize := |record| as SizeT + 1;
      SkipFullFiles(appendSize, was);
      ChosenPassesFull(rotor, basePath, maxFileSize as int, Entry(record, today));
    }

    /** One record of a batch: to the right file's pending text, with the cached size kept true. */
    method TakeIn(e: Entry)
      requires Valid() && isOpen && |e.record| < SIZE_MAX
      modifies this, fs
      ensures Valid() && isOpen && Abs() == Place(old(Abs()), basePath, maxFileSize as int, e)
    {
      RollIfNeeded(e.record, e.today);
      CachedSize();
      ExtendedTwice(Written(), openName, pending, Line(e.record));
      assert pending + e.record + "\n" == pending + Line(e.record);
      pending := pending + e.record;
      pending := pending + "\n";
      currentSize := currentSize + (|e.record| as SizeT + 1);
    }

    /** A batch leaves the files exactly as the naive writer, given the same records and the same
        readings of the date, would leave them. */
    method WriteBatch(entries: seq<Entry>)
      requires Valid() && isOpen && forall i | 0 <= i < |entries| :: |entries[i].record| < SIZE_MAX
      modifies this, fs
      ensures Valid() && isOpen && pending == ""
      ensures Abs() == PlaceAll(old(Abs()), basePath, maxFileSize as int, entries)
    {
      ghost var was := Abs();
      for i := 0 to |entries|
        invariant Valid() && isOpen
        invariant Abs() == PlaceAll(was, basePath, maxFileSize as int, entries[..i])
      {
        TakeIn(entries[i]);
        assert entries[..i + 1][..i] == entries[..i];
      }
      FlushPending();
      assert entries[..|entries|] == entries;
    }

    method Obey(call: SinkCall)
      requires Valid() && isOpen && pending == "" && forall e | e in Entries(call) :: |e.record| < SIZE_MAX
      modifies this, fs
      ensures Valid() && isOpen && pending == ""
      ensures Abs() == PlaceAll(old(Abs()), basePath, maxFileSize as int, Entries(call))
      ensures call.FlushCall? ==> fs.files == View()
    {
      match call
      case WriteCall(entries) => WriteBatch(entries);
      case FlushCall => Flush();
    }

    /** What the logger's worker does to the sink between init and stop: batches of any sizes, with
        flushes anywhere among them. Buffering never shows: the files come out as the naive writer,
        given the same records one at a time, would have them. */
    method Serve(calls: seq<SinkCall>)
      requires Valid() && isOpen && pending == "" && RecordsFit(calls)
      modifies this, fs
      ensures Valid() && isOpen && pending == ""
      ensures Abs() == PlaceAll(old(Abs()), basePath, maxFileSize as int, Taken(calls))
      ensures calls != [] && calls[|calls| - 1].FlushCall? ==> fs.files == View()
    {
      ghost var was := Abs();
      for i := 0 to |calls|
        invariant Valid() && isOpen && pending == ""
        invariant Abs() == PlaceAll(was, basePath, maxFileSize as int, Taken(calls[..i]))
        invariant i > 0 && calls[i - 1].FlushCall? ==> fs.files == View()
      {
        PlaceNext(was, basePath, maxFileSize as int, calls, i);
        Obey(calls[i]);
      }
      assert calls[..|calls|] == calls;
    }
  }

  lemma PlaceNext(r: Rotor, base: string, max: nat, calls: seq<SinkCall>, n: nat)
    requires n < |calls|
    ensures PlaceAll(r, base, max, Taken(calls[..n + 1]))
         == PlaceAll(PlaceAll(r, base, max, Taken(calls[..n])), base, max, Entries(calls[n]))
  {
    TakenSnoc(calls, n);
    PlaceAllConcat(r, base, max, Taken(calls[..n]), Entries(calls[n]));
  }

  datatype SinkCall = WriteCall(entries: seq<Entry>) | FlushCall

  /** All the records of a sequence of calls. */
  function Taken(calls: seq<SinkCall>): seq<Entry> {
    if calls == [] then [] else Taken(calls[..|calls| - 1]) + Entries(calls[|calls| - 1])
  }

  function Entries(call: SinkCall): seq<Entry> {
    match call
    case WriteCall(entries) => entries
    case FlushCall => []
  }

  lemma TakenSnoc(calls: seq<SinkCall>, n: nat)
    requires n < |calls|
    ensures Taken(calls[..n + 1]) == Taken(calls[..n]) + Entries(calls[n])
  {
    assert calls[..n + 1][..n] == calls[..n];
  }

  ghost predicate RecordsFit(calls: seq<SinkCall>) {
    forall c, e | c in calls && e in Entries(c) :: |e.record| < SIZE_MAX
  }

  datatype Made = Made(sink: FileSink) | InvalidArgument

  /** An empty path or a limit of 0 is refused before any file is touched. */
  method MakeFileSink(fs: FileSystem, basePath: string, maxFileSize: SizeT, today: string) returns (made: Made)
    requires SizesFit(fs.files)
    modifies fs
    ensures made.InvalidArgument? <==> basePath == "" || maxFileSize == 0
    ensures made.InvalidArgument? ==> fs.files == old(fs.files)
    ensures made.Made? ==>
              && fresh(made.sink) && made.sink.fs == fs
              && made.sink.Valid() && made.sink.isOpen && made.sink.pending == ""
              && var name := LogFileName(basePath, today, 0);
                 made.sink.Abs() == Rotor(old(fs.files)[name := Content(old(fs.files), name)], today, 0)
  {
    if basePath == "" || maxFileSize == 0 {
      return InvalidArgument;
    }
    var sink := new FileSink(fs, basePath, maxFileSize, today);
    return Made(sink);
  }

  /** A sink from its making to its close. In the end the files themselves, with nothing buffered
      anywhere, are those of the naive writer: however the records were cut into batches, whenever
      they were flushed and however much the stream passed on at a time. */
  method WriteAll(fs: FileSystem, basePath: string, maxFileSize: SizeT, today: string, calls: seq<SinkCall>)
    requires basePath != "" && maxFileSize > 0 && SizesFit(fs.files) && RecordsFit(calls)
    modifies fs
    ensures var name := LogFileName(basePath, today, 0);
            var atStart := Rotor(old(fs.files)[name := Content(old(fs.files), name)], today, 0);
            fs.files == PlaceAll(atStart, basePath, maxFileSize as int, Taken(calls)).files
  {
    var sink := new FileSink(fs, basePath, maxFileSize, today);
    sink.Serve(calls);
    sink.Close();
  }
}
