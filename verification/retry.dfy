/** A write to fstab that breaks off: what the next call of ensureFstab makes of the text
    (internal/disk/manager.go). */
module Retry {
  import opened Text
  import opened Fstab

  ghost predicate Clean(m: Mount) {
    Spaceless(m.Id()) && IsWord(m.path) && OneLine(m.fsType) && OneLine(OptionText(m.options))
  }

  function First(m: Mount): string {
    "UUID=" + m.Id()
  }

  function Rest(m: Mount): string {
    Tail(m.fsType, OptionText(m.options))
  }

  /** The fields of the entry. */
  function Full(m: Mount): seq<string> {
    [First(m), m.path] + Fields(Rest(m))
  }

  /** Length of the addition up to and including the mount path. */
  function Upto(m: Mount): nat {
    |"\n" + COMMENT + "\n" + First(m) + " " + m.path|
  }

  function NonSpaces(s: string): nat {
    if s == "" then 0 else (if IsSpace(s[0]) then 0 else 1) + NonSpaces(s[1..])
  }

  function Total(words: seq<string>): nat {
    if words == [] then 0 else |words[0]| + Total(words[1..])
  }

  lemma {:induction false} NonSpacesConcat(a: string, b: string)
    ensures NonSpaces(a + b) == NonSpaces(a) + NonSpaces(b)
  {
    if a == "" {
      assert a + b == b;
    } else {
      assert (a + b)[0] == a[0] && (a + b)[1..] == a[1..] + b;
      NonSpacesConcat(a[1..], b);
    }
  }

  lemma {:induction false} NonSpacesWord(w: string)
    requires Spaceless(w)
    ensures NonSpaces(w) == |w|
  {
    if w != "" {
      NonSpacesWord(w[1..]);
    }
  }

  /** The words of a text have its characters that are not spaces. */
  lemma {:induction false} TotalFields(s: string)
    ensures Total(Fields(s)) == NonSpaces(s)
    decreases |s|
  {
    if s == "" {
    } else if IsSpace(s[0]) {
      TotalFields(s[1..]);
    } else {
      var w, rest := s[..WordLength(s)], s[WordLength(s)..];
      TotalFields(rest);
      assert s == w + rest;
      NonSpacesConcat(w, rest);
      NonSpacesWord(w);
    }
  }

  /** A text cut before its last character, which is no space, has other words. */
  lemma CutChangesFields(s: string, t: nat)
    requires t < |s| && !IsSpace(s[|s| - 1])
    ensures Fields(s[..t]) != Fields(s)
  {
    assert s == s[..t] + s[t..];
    NonSpacesConcat(s[..t], s[t..]);
    SomeNonSpace(s[t..]);
    TotalFields(s[..t]);
    TotalFields(s);
  }

  lemma {:induction false} SomeNonSpace(s: string)
    requires s != "" && !IsSpace(s[|s| - 1])
    ensures NonSpaces(s) > 0
  {
    if IsSpace(s[0]) {
      SomeNonSpace(s[1..]);
    }
  }

  lemma {:induction false} TrimRightHead(s: string)
    requires s != "" && !IsSpace(s[0])
    ensures TrimRight(s) != "" && TrimRight(s)[0] == s[0]
  {
    if IsSpace(s[|s| - 1]) {
      TrimRightHead(s[..|s| - 1]);
    }
  }

  lemma WordFields(w: string)
    requires Spaceless(w)
    ensures Fields(w) == if w == "" then [] else [w]
  {
    if w != "" {
      FieldsWord(w, "");
      assert w + "" == w;
    }
  }

  /** The words of a line cut inside or before its mount path. */
  lemma EarlyFields(first: string, path: string, line: string, q: nat)
    requires IsWord(first) && IsWord(path) && q < |first + " " + path| <= |line| && first + " " + path <= line
    ensures !IsFor(Fields(line[..q]), path)
  {
    var lead := first + " " + path;
    assert line[..q] == lead[..q];
    if q <= |first| {
      assert lead[..q] == first[..q];
      WordFields(first[..q]);
    } else {
      var r := q - |first| - 1;
      assert lead[..q] == first + (" " + path[..r]);
      FieldsWord(first, " " + path[..r]);
      FieldsGap(path[..r]);
      WordFields(path[..r]);
    }
  }

  /** The words of a line cut after its mount path. */
  lemma LateFields(first: string, path: string, tail: string, q: nat)
    requires IsWord(first) && IsWord(path)
    requires |first + " " + path| <= q <= |first + " " + path + " " + tail|
    ensures var t := q - |first + " " + path| - 1;
            Fields((first + " " + path + " " + tail)[..q]) == [first, path] + if t < 0 then [] else Fields(tail[..t])
  {
    var line := first + " " + path + " " + tail;
    var t := q - |first + " " + path| - 1;
    if t < 0 {
      assert line[..q] == first + (" " + path);
      FieldsWord(first, " " + path);
      FieldsGap(path);
      WordFields(path);
    } else {
      assert line[..q] == first + " " + path + " " + tail[..t];
      LineFields(first, path, tail[..t]);
    }
  }

  lemma LineOf(m: Mount)
    requires Clean(m)
    ensures IsWord(First(m)) && m.Line() == First(m) + " " + m.path + " " + Rest(m)
    ensures OneLine(m.Line()) && !IsSpace(Rest(m)[|Rest(m)| - 1]) && m.Line()[0] == 'U'
  {
    assert m.Line() == EntryLine(m.Id(), m.path, Rest(m));
    LineShape(m.Id(), m.path, Rest(m));
  }

  /** Where the line is cut decides whether it reads as an entry for the path, and as the full one. */
  lemma CutLine(m: Mount, q: nat)
    requires Clean(m) && q <= |m.Line()|
    ensures IsFor(Fields(m.Line()[..q]), m.path) <==> q >= |First(m) + " " + m.path|
    ensures Fields(m.Line()[..q]) == Full(m) <==> q == |m.Line()|
  {
    LineOf(m);
    var first, tail := First(m), Rest(m);
    if q < |first + " " + m.path| {
      EarlyFields(first, m.path, m.Line(), q);
      assert IsFor(Full(m), m.path);
    } else {
      var t := q - |first + " " + m.path| - 1;
      LateFields(first, m.path, tail, q);
      if 0 <= t < |tail| {
        CutChangesFields(tail, t);
      } else if t < 0 {
        CutChangesFields(tail, 0);
      } else {
        assert tail[..t] == tail;
      }
      SameTails(first, m.path, if t < 0 then [] else Fields(tail[..t]), Fields(tail));
    }
  }

  lemma SameTails(a: string, b: string, xs: seq<string>, ys: seq<string>)
    ensures [a, b] + xs == [a, b] + ys <==> xs == ys
  {
    assert ([a, b] + xs)[2..] == xs && ([a, b] + ys)[2..] == ys;
  }

  /** One more line, which may be cut short: a comment, or nothing, adds no entry. */
  lemma OneMoreLine(text: string, part: string)
    requires OneLine(part) && (part == "" || !IsSpace(part[0]))
    ensures Entries(text + ("\n" + part))
         == Entries(text) + if part == "" || part[0] == '#' then [] else [Fields(part)]
  {
    var sep := ['\n'];
    assert text + ("\n" + part) == text + sep + part;
    SplitConcat(text, part, '\n');
    SplitNone(part, '\n');
    EntriesConcat(Split(text, '\n'), [part]);
    OneLineEntries(part);
  }

  lemma OneLineEntries(part: string)
    requires part == "" || !IsSpace(part[0])
    ensures EntriesOf([part]) == if part == "" || part[0] == '#' then [] else [Fields(part)]
  {
    assert [part][1..] == [];
    if part != "" {
      TrimRightHead(part);
      FieldsTrim(part);
    }
  }

  lemma TwoMoreLines(text: string, comment: string, part: string)
    requires OneLine(comment) && comment != "" && comment[0] == '#'
    requires OneLine(part) && (part == "" || !IsSpace(part[0]))
    ensures Entries(text + ("\n" + comment + "\n" + part))
         == Entries(text) + if part == "" || part[0] == '#' then [] else [Fields(part)]
  {
    OneMoreLine(text, comment);
    OneMoreLine(text + ("\n" + comment), part);
    Regroup(text, "\n" + comment, "\n", part);
  }

  lemma Regroup(a: string, b: string, c: string, d: string)
    ensures a + (b + c + d) == a + b + (c + d)
  {
  }

  /** The entries once the addition is cut in its line. */
  lemma CutEntries(text: string, m: Mount, q: nat)
    requires Clean(m) && q <= |m.Line()|
    ensures Entries(text + ("\n" + COMMENT + "\n" + m.Line()[..q]))
         == Entries(text) + if q == 0 then [] else [Fields(m.Line()[..q])]
  {
    LineOf(m);
    CommentShape();
    Prefix(m.Line(), q);
    TwoMoreLines(text, COMMENT, m.Line()[..q]);
  }

  lemma Prefix(line: string, q: nat)
    requires q <= |line| && OneLine(line)
    ensures OneLine(line[..q]) && (q > 0 ==> line[..q][0] == line[0]) && (q == 0 <==> line[..q] == "")
  {
  }

  /** What the scanner sees of an addition cut after k characters. */
  lemma CutAddition(text: string, m: Mount, k: nat)
    requires Clean(m) && k < |m.Added()|
    ensures var cut := text + m.Added()[..k];
            var head := |"\n" + COMMENT + "\n"|;
            if k <= head then Entries(cut) == Entries(text)
            else Entries(cut) == Entries(text) + [Fields(m.Line()[..k - head])]
  {
    var added, head := m.Added(), |"\n" + COMMENT + "\n"|;
    assert added == "\n" + COMMENT + "\n" + m.Line() + "\n";
    if k == 0 {
      assert text + added[..k] == text;
    } else if k < head {
      assert added[..k] == "\n" + COMMENT[..k - 1];
      CommentShape();
      OneMoreLine(text, COMMENT[..k - 1]);
    } else {
      assert added[..k] == "\n" + COMMENT + "\n" + m.Line()[..k - head];
      CutEntries(text, m, k - head);
    }
  }

  /** A write that broke off after k characters, and the next call. The text ends up with the
      full entry exactly when the cut was before the end of the mount path, or nothing but the
      final newline was lost. Cut anywhere else, the broken line counts as the entry, and no later
      call changes anything. */
  lemma RetryExactly(text: string, m: Mount, k: nat)
    requires Clean(m) && !Mounts(text, m.path) && k <= |m.Added()|
    ensures var cut := text + m.Added()[..k];
            && (Full(m) in Entries(After(cut, m)) <==> k < Upto(m) || k + 1 >= |m.Added()|)
            && (k >= Upto(m) ==> After(cut, m) == cut)
  {
    var cut, head := text + m.Added()[..k], |"\n" + COMMENT + "\n"|;
    assert |m.Added()| == head + |m.Line()| + 1;
    LineOf(m);
    NotYet(text, m);
    if k == |m.Added()| {
      assert m.Added()[..k] == m.Added();
      AddsOneEntry(text, m);
      RecognisedExactly(text, m);
    } else {
      CutAddition(text, m, k);
      if k > head {
        CutLine(m, k - head);
        MountsMore(text, cut, m.path, Fields(m.Line()[..k - head]));
      } else {
        assert Mounts(cut, m.path) == Mounts(text, m.path);
      }
      if k < Upto(m) {
        assert !Mounts(cut, m.path);
        AddsOneEntry(cut, m);
      }
    }
  }

  lemma NotYet(text: string, m: Mount)
    requires !Mounts(text, m.path)
    ensures Full(m) !in Entries(text)
  {
    assert IsFor(Full(m), m.path);
  }

  lemma MountsMore(text: string, cut: string, path: string, e: seq<string>)
    requires !Mounts(text, path) && Entries(cut) == Entries(text) + [e]
    ensures Mounts(cut, path) <==> IsFor(e, path)
  {
    assert e in Entries(cut);
  }
}
