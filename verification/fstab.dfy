/** ensureFstab (internal/disk/manager.go): an append-only edit of /etc/fstab that its own
    scanner must recognise the next time. */
module Fstab {
  import opened Wrappers
  import opened Text

  /** A line the scanner skips: blank once trimmed, or a comment. */
  predicate Skipped(line: string) {
    var t := TrimSpace(line);
    t == "" || t[0] == '#'
  }

  /** The fields of each line that is not skipped. */
  function EntriesOf(lines: seq<string>): seq<seq<string>> {
    if lines == [] then []
    else (if Skipped(lines[0]) then [] else [Fields(TrimSpace(lines[0]))]) + EntriesOf(lines[1..])
  }

  function Entries(text: string): seq<seq<string>> {
    EntriesOf(Split(text, '\n'))
  }

  predicate IsFor(entry: seq<string>, mountPath: string) {
    |entry| >= 2 && entry[1] == mountPath
  }

  predicate Mounts(text: string, mountPath: string) {
    Listed(Split(text, '\n'), mountPath)
  }

  predicate Listed(lines: seq<string>, mountPath: string) {
    exists e :: e in EntriesOf(lines) && IsFor(e, mountPath)
  }

  lemma ListedNext(lines: seq<string>, i: nat, path: string)
    requires i < |lines|
    ensures Listed(lines[i..], path) <==>
              (!Skipped(lines[i]) && IsFor(Fields(TrimSpace(lines[i])), path)) || Listed(lines[i + 1..], path)
  {
    var fields := Fields(TrimSpace(lines[i]));
    assert lines[i..][0] == lines[i] && lines[i..][1..] == lines[i + 1..];
    assert EntriesOf(lines[i..]) == (if Skipped(lines[i]) then [] else [fields]) + EntriesOf(lines[i + 1..]);
    if !Skipped(lines[i]) && IsFor(fields, path) {
      assert fields in EntriesOf(lines[i..]);
    }
    if Listed(lines[i + 1..], path) {
      var e :| e in EntriesOf(lines[i + 1..]) && IsFor(e, path);
      assert e in EntriesOf(lines[i..]);
    }
  }

  function Join(parts: seq<string>, sep: string): string {
    if parts == [] then ""
    else if |parts| == 1 then parts[0]
    else parts[0] + sep + Join(parts[1..], sep)
  }

  function OptionText(options: seq<string>): string {
    if options == [] then "defaults" else Join(options, ",")
  }

  /** What follows the mount path in an entry. */
  function Tail(fsType: string, opts: string): string {
    fsType + " " + opts + " 0 0"
  }

  function EntryLine(id: string, mountPath: string, tail: string): string {
    "UUID=" + id + " " + mountPath + " " + tail
  }

  const COMMENT := "# eth-node-operator managed"

  function Addition(line: string): string {
    "\n" + COMMENT + "\n" + line + "\n"
  }

  /** A request: `uuid` is None when blkid fails and the device path takes its place. */
  datatype Mount = Mount(device: string, uuid: Option<string>, path: string, fsType: string, options: seq<string>)
  {
    function Id(): string {
      if uuid.Some? then uuid.value else device
    }

    function Line(): string {
      EntryLine(Id(), path, Tail(fsType, OptionText(options)))
    }

    function Added(): string {
      Addition(Line())
    }
  }

  datatype Failure = CannotRead | CannotOpen | CannotWrite

  /** What the file system does: `written` is None when the whole entry is written, else how
      much of it was before the write failed. */
  datatype Disk = Disk(readable: bool, writable: bool, written: Option<nat>)

  class Table {
    var text: string

    constructor (text: string)
      ensures this.text == text
    {
      this.text := text;
    }

    /** The loop that looks for the mount path. */
    method Scan(path: string) returns (found: bool)
      ensures found <==> Mounts(text, path)
    {
      var lines := Split(text, '\n');
      var i := 0;
      while i < |lines|
        invariant 0 <= i <= |lines|
        invariant Mounts(text, path) <==> Listed(lines[i..], path)
      {
        var line := TrimSpace(lines[i]);
        ListedNext(lines, i, path);
        if line != "" && line[0] != '#' {
          var fields := Fields(line);
          if |fields| >= 2 && fields[1] == path {
            return true;
          }
        }
        i := i + 1;
      }
      return false;
    }

    /** Returns whether a new entry was written. */
    method EnsureFstab(m: Mount, disk: Disk) returns (r: Result<bool, Failure>)
      modifies this
      ensures !disk.readable ==> r == Err(CannotRead)
      ensures disk.readable && Mounts(old(text), m.path) ==> r == Ok(false)
      ensures disk.readable && !Mounts(old(text), m.path) && disk.writable && disk.written.None? ==> r == Ok(true)
      ensures r.Ok? ==> text == After(old(text), m)
      ensures r == Err(CannotRead) || r == Err(CannotOpen) ==> text == old(text)
      ensures r.Ok? ==> r.value == !Mounts(old(text), m.path)
      ensures r == Err(CannotWrite) ==> exists k :: 0 <= k <= |m.Added()| && text == old(text) + m.Added()[..k]
    {
      if !disk.readable {
        return Err(CannotRead);
      }
      var found := Scan(m.path);
      if found {
        return Ok(false);
      }
      if !disk.writable {
        return Err(CannotOpen);
      }
      var entry := m.Added();
      if disk.written.Some? {
        var k := if disk.written.value < |entry| then disk.written.value else |entry|;
        text := text + entry[..k];
        return Err(CannotWrite);
      }
      text := text + entry;
      return Ok(true);
    }
  }

  lemma {:induction false} EntriesConcat(a: seq<string>, b: seq<string>)
    ensures EntriesOf(a + b) == EntriesOf(a) + EntriesOf(b)
  {
    if a == [] {
      assert a + b == b;
    } else {
      assert (a + b)[0] == a[0] && (a + b)[1..] == a[1..] + b;
      EntriesConcat(a[1..], b);
    }
  }

  /** The scanner only ever sees words, so it can recognise no other mount path. */
  lemma {:induction false} OnlyWords(lines: seq<string>, e: seq<string>, w: string)
    requires e in EntriesOf(lines) && w in e
    ensures IsWord(w)
  {
    if !Skipped(lines[0]) && e == Fields(TrimSpace(lines[0])) {
    } else {
      OnlyWords(lines[1..], e, w);
    }
  }

  lemma LineFields(first: string, path: string, tail: string)
    requires IsWord(first) && IsWord(path)
    ensures Fields(first + " " + path + " " + tail) == [first, path] + Fields(tail)
  {
    var gap := " ";
    assert first + gap + path + gap + tail == first + (gap + (path + (gap + tail)));
    FieldsWord(first, gap + (path + (gap + tail)));
    FieldsGap(path + (gap + tail));
    FieldsWord(path, gap + tail);
    FieldsGap(tail);
  }

  lemma FieldsGap(s: string)
    ensures Fields(" " + s) == Fields(s)
  {
    assert (" " + s)[1..] == s;
  }

  /** A line that starts and ends with characters that are not spaces trims to itself. */
  lemma Trimmed(s: string)
    requires s != "" && !IsSpace(s[0]) && !IsSpace(s[|s| - 1])
    ensures TrimSpace(s) == s
  {
  }

  predicate OneLine(s: string) {
    '\n' !in s
  }

  lemma {:induction false} JoinIsWord(parts: seq<string>)
    requires parts != [] && forall i :: 0 <= i < |parts| ==> IsWord(parts[i])
    ensures IsWord(Join(parts, ","))
  {
    if |parts| > 1 {
      JoinIsWord(parts[1..]);
    }
  }

  lemma {:induction false} JoinSplits(parts: seq<string>)
    requires parts != [] && forall i :: 0 <= i < |parts| ==> ',' !in parts[i]
    ensures Split(Join(parts, ","), ',') == parts
  {
    SplitNone(parts[0], ',');
    if |parts| > 1 {
      JoinSplits(parts[1..]);
      SplitConcat(parts[0], Join(parts[1..], ","), ',');
      assert Join(parts, ",") == parts[0] + [','] + Join(parts[1..], ",");
    } else {
      assert parts == [parts[0]];
    }
  }

  ghost predicate IsOption(o: string) {
    IsWord(o) && ',' !in o
  }

  lemma DefaultIsOption()
    ensures IsOption("defaults")
  {
  }

  lemma OptionsRead(options: seq<string>)
    requires forall i :: 0 <= i < |options| ==> IsOption(options[i])
    ensures IsWord(OptionText(options))
    ensures Split(OptionText(options), ',') == if options == [] then ["defaults"] else options
  {
    if options == [] {
      var opts := OptionText(options);
      DefaultIsOption();
      assert opts == "defaults";
      SplitNone(opts, ',');
    } else {
      JoinIsWord(options);
      JoinSplits(options);
    }
  }

  lemma TailFields(fsType: string, opts: string)
    requires IsWord(fsType) && IsWord(opts)
    ensures Fields(Tail(fsType, opts)) == [fsType, opts, "0", "0"]
  {
    var zero := "0";
    SpacedFour(fsType, opts, zero, zero);
    assert Tail(fsType, opts) == fsType + (" " + (opts + (" " + (zero + (" " + zero)))));
    FieldsSpaced([fsType, opts, zero, zero]);
  }

  lemma SpacedFour(a: string, b: string, c: string, d: string)
    ensures Spaced([a, b, c, d]) == a + (" " + (b + (" " + (c + (" " + d)))))
  {
    assert [a, b, c, d][1..] == [b, c, d] && [b, c, d][1..] == [c, d] && [c, d][1..] == [d];
    assert Spaced([d]) == d;
    assert Spaced([c, d]) == c + (" " + d);
    assert Spaced([b, c, d]) == b + (" " + (c + (" " + d)));
  }

  /** The six fields of an entry: the UUID or the device, the mount path, the type, the options
      with commas between them or "defaults" if there are none, and two zeros. */
  ghost predicate EntryOf(e: seq<string>, m: Mount) {
    && |e| == 6 && e[0] == "UUID=" + (if m.uuid.Some? then m.uuid.value else m.device) && e[1] == m.path
    && e[2] == m.fsType && Split(e[3], ',') == (if m.options == [] then ["defaults"] else m.options)
    && e[4] == "0" && e[5] == "0"
  }

  lemma WordIsLine(w: string)
    requires IsWord(w)
    ensures OneLine(w)
  {
  }

  lemma AddsWords(text: string, m: Mount, id: string, opts: string) returns (e: seq<string>)
    requires Spaceless(id) && IsWord(m.path) && IsWord(m.fsType) && IsWord(opts)
    requires id == m.Id() && opts == OptionText(m.options)
    ensures Entries(text + m.Added()) == Entries(text) + [e]
    ensures e == ["UUID=" + id, m.path, m.fsType, opts, "0", "0"]
  {
    WordIsLine(m.fsType);
    WordIsLine(opts);
    TailFields(m.fsType, opts);
    AddsOneEntry(text, m);
    e := ["UUID=" + id, m.path] + [m.fsType, opts, "0", "0"];
  }

  lemma EntryShape(e: seq<string>, m: Mount, opts: string)
    requires e == ["UUID=" + m.Id(), m.path, m.fsType, opts, "0", "0"]
    requires Split(opts, ',') == if m.options == [] then ["defaults"] else m.options
    ensures EntryOf(e, m)
  {
  }

  /** The edit, of a request whose type and options can stand in an entry. */
  lemma AddsSixFields(text: string, m: Mount) returns (e: seq<string>)
    requires Spaceless(m.Id()) && IsWord(m.path) && IsWord(m.fsType)
    requires forall i :: 0 <= i < |m.options| ==> IsOption(m.options[i])
    ensures EntryOf(e, m) && Entries(text + m.Added()) == Entries(text) + [e]
  {
    var opts := OptionText(m.options);
    OptionsRead(m.options);
    e := AddsWords(text, m, m.Id(), opts);
    EntryShape(e, m, opts);
  }

  /** Whatever the text was, with or without a newline at its end, the edit adds one entry, and
      that entry is for the mount path. */
  lemma AddsOneEntry(text: string, m: Mount)
    requires Spaceless(m.Id()) && IsWord(m.path) && OneLine(m.fsType) && OneLine(OptionText(m.options))
    ensures Entries(text + m.Added())
         == Entries(text) + [["UUID=" + m.Id(), m.path] + Fields(Tail(m.fsType, OptionText(m.options)))]
  {
    var tail := Tail(m.fsType, OptionText(m.options));
    assert OneLine(tail) && tail[|tail| - 1] == '0';
    LineFields("UUID=" + m.Id(), m.path, tail);
    LineShape(m.Id(), m.path, tail);
    CommentShape();
    EntriesAdded(text, COMMENT, m.Line());
  }

  /** The text after several more calls that succeed. */
  function AfterAll(text: string, later: seq<Mount>): string {
    if later == [] then text else After(AfterAll(text, later[..|later| - 1]), later[|later| - 1])
  }

  lemma MoreLines(text: string, added: string)
    requires added != "" && added[0] == '\n'
    ensures Entries(text) <= Entries(text + added)
  {
    var more := added[1..];
    assert text + added == text + ['\n'] + more;
    SplitConcat(text, more, '\n');
    EntriesConcat(Split(text, '\n'), Split(more, '\n'));
  }

  lemma AdditionStarts(line: string)
    ensures Addition(line) != "" && Addition(line)[0] == '\n'
  {
  }

  /** A call only ever adds lines. */
  lemma AfterAdds(text: string, m: Mount)
    ensures Entries(text) <= Entries(After(text, m))
  {
    AdditionStarts(m.Line());
    MoreLines(text, m.Added());
  }

  /** The entry for a mount path has for good the id it was written with, the UUID or the device
      path that took its place when blkid failed: it stays through any calls, and calls for the
      same path change nothing. */
  lemma {:induction false} FirstIdStays(text: string, m: Mount, later: seq<Mount>)
    requires Spaceless(m.Id()) && IsWord(m.path) && OneLine(m.fsType) && OneLine(OptionText(m.options))
    requires !Mounts(text, m.path)
    ensures Entries(text) + [["UUID=" + m.Id(), m.path] + Fields(Tail(m.fsType, OptionText(m.options)))]
         <= Entries(AfterAll(After(text, m), later))
    ensures (forall l :: l in later ==> l.path == m.path) ==> AfterAll(After(text, m), later) == After(text, m)
    decreases |later|
  {
    if later == [] {
      AddsOneEntry(text, m);
    } else {
      var n := |later| - 1;
      FirstIdStays(text, m, later[..n]);
      AfterAdds(AfterAll(After(text, m), later[..n]), later[n]);
      RecognisedExactly(text, m);
    }
  }

  lemma CommentShape()
    ensures OneLine(COMMENT) && COMMENT != "" && COMMENT[0] == '#' && !IsSpace(COMMENT[|COMMENT| - 1])
  {
  }

  lemma LineShape(id: string, path: string, tail: string)
    requires Spaceless(id) && IsWord(path) && OneLine(tail) && tail != "" && tail[|tail| - 1] == '0'
    ensures var line := EntryLine(id, path, tail);
            OneLine(line) && line != "" && line[0] != '#' && !IsSpace(line[0]) && !IsSpace(line[|line| - 1])
  {
  }

  lemma EntriesAdded(text: string, comment: string, line: string)
    requires OneLine(comment) && OneLine(line)
    requires comment != "" && comment[0] == '#' && !IsSpace(comment[|comment| - 1])
    requires line != "" && line[0] != '#' && !IsSpace(line[0]) && !IsSpace(line[|line| - 1])
    ensures Entries(text + ("\n" + comment + "\n" + line + "\n")) == Entries(text) + [Fields(line)]
  {
    SplitAddition(text, comment, line);
    EntriesConcat(Split(text, '\n'), [comment, line, ""]);
    OneEntry(comment, line);
  }

  lemma OneEntry(comment: string, line: string)
    requires comment != "" && comment[0] == '#' && !IsSpace(comment[|comment| - 1])
    requires line != "" && line[0] != '#' && !IsSpace(line[0]) && !IsSpace(line[|line| - 1])
    ensures EntriesOf([comment, line, ""]) == [Fields(line)]
  {
    Trimmed(comment);
    Trimmed(line);
    var added := [comment, line, ""];
    assert added[1..] == [line, ""] && [line, ""][1..] == [""] && [""][1..] == [];
    assert EntriesOf([""]) == [];
    assert EntriesOf([line, ""]) == [Fields(line)];
  }

  lemma SplitAddition(text: string, comment: string, line: string)
    requires OneLine(comment) && OneLine(line)
    ensures Split(text + ("\n" + comment + "\n" + line + "\n"), '\n') == Split(text, '\n') + [comment, line, ""]
  {
    var sep := ['\n'];
    assert text + ("\n" + comment + "\n" + line + "\n") == text + sep + (comment + sep + (line + sep + ""));
    SplitConcat(text, comment + sep + (line + sep + ""), '\n');
    SplitConcat(comment, line + sep + "", '\n');
    SplitConcat(line, "", '\n');
    SplitNone(comment, '\n');
    SplitNone(line, '\n');
  }

  /** The edit is recognised afterwards exactly when the mount path is a non-empty string
      without white space; otherwise every later call appends another entry. */
  lemma RecognisedExactly(text: string, m: Mount)
    requires Spaceless(m.Id()) && OneLine(m.fsType) && OneLine(OptionText(m.options))
    ensures Mounts(text + m.Added(), m.path) <==> IsWord(m.path)
  {
    var after := text + m.Added();
    if IsWord(m.path) {
      AddsOneEntry(text, m);
      var e := Entries(after)[|Entries(text)|];
      assert e in Entries(after) && IsFor(e, m.path);
    } else if Mounts(after, m.path) {
      var e :| e in EntriesOf(Split(after, '\n')) && IsFor(e, m.path);
      assert e[1] in e;
      OnlyWords(Split(after, '\n'), e, m.path);
    }
  }

  /** The text a successful call leaves. */
  function After(text: string, m: Mount): string {
    if Mounts(text, m.path) then text else text + m.Added()
  }

  /** A second call changes nothing exactly when the mount path is a word: then the text is
      settled by the first, else no call ever finds the path and each one appends. */
  lemma SettlesExactly(text: string, m: Mount)
    requires Spaceless(m.Id()) && OneLine(m.fsType) && OneLine(OptionText(m.options))
    ensures After(After(text, m), m) == After(text, m) <==> IsWord(m.path)
  {
    RecognisedExactly(text, m);
    if Mounts(text, m.path) {
      var e :| e in EntriesOf(Split(text, '\n')) && IsFor(e, m.path);
      assert e[1] in e;
      OnlyWords(Split(text, '\n'), e, m.path);
    } else if !IsWord(m.path) {
      var once := After(text, m);
      assert !Mounts(once, m.path) && |m.Added()| > 0;
      assert |After(once, m)| > |once|;
    }
  }
}
