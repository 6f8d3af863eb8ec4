/**
 The hand-over of finished uploads: FileTransferTask queues names and prints them through a
 FileWriter, one line each; TransferListWatcher reads the lines back and uploads each once.
 */
module TransferList {
  import opened Sequences
  import opened Text
  import opened Wrappers

  const FILE_TAG := "FILE:"
  const FD_TAG := "FD:"

  function Line(tag: string, body: string): string {
    tag + body + "\n"
  }

  function Printed(names: seq<string>): string {
    if names == [] then "" else Line(FILE_TAG, names[0]) + Printed(names[1..])
  }

  /** What readlink("/proc/self/fd/..") leaves of a descriptor, both in the task and in the writer. */
  function NameOfFd(fd: int, link: Option<string>): string {
    match link
    case Some(path) => path
    case None => "<fd:" + ToString(fd) + ">"
  }

  function PrintedFds(fds: seq<(int, Option<string>)>): string {
    if fds == [] then ""
    else
      (match fds[0].1
       case Some(path) => Line(FILE_TAG, path)
       case None => Line(FD_TAG, ToString(fds[0].0))) + PrintedFds(fds[1..])
  }

  class FileWriter {
    var ofs: string

    constructor (existing: string)
      ensures ofs == existing
    {
      ofs := existing;
    }

    method WriteName(fileName: string)
      modifies this
      ensures ofs == old(ofs) + (FILE_TAG + fileName + "\n")
    {
      ofs := ofs + Line(FILE_TAG, fileName);
    }

    method WriteFd(fd: int, link: Option<string>)
      modifies this
      ensures ofs == old(ofs) + match link
                                case Some(path) => FILE_TAG + path + "\n"
                                case None => FD_TAG + ToString(fd) + "\n"
    {
      match link
      case Some(path) => WriteName(path);
      case None => ofs := ofs + Line(FD_TAG, ToString(fd));
    }
  }

  class FileTransferTask {
    const writer: FileWriter
    var pendingNames: seq<string>
    var pendingFDs: seq<(int, Option<string>)>

    constructor (writer: FileWriter)
      ensures this.writer == writer && pendingNames == [] && pendingFDs == []
    {
      this.writer := writer;
      pendingNames, pendingFDs := [], [];
    }

    method AddName(fileName: string)
      modifies this
      ensures pendingNames == old(pendingNames) + [fileName] && pendingFDs == old(pendingFDs)
    {
      pendingNames := pendingNames + [fileName];
    }

    /** A descriptor is resolved at once and queued as a name. */
    method AddFd(fd: int, link: Option<string>)
      modifies this
      ensures pendingNames == old(pendingNames) + [NameOfFd(fd, link)] && pendingFDs == old(pendingFDs)
    {
      AddName(NameOfFd(fd, link));
    }

    method Execute()
      modifies this, writer
      ensures writer.ofs == old(writer.ofs) + Printed(old(pendingNames)) + PrintedFds(old(pendingFDs))
      ensures pendingNames == [] && pendingFDs == []
    {
      var i := 0;
      while i < |pendingNames|
        invariant 0 <= i <= |pendingNames|
        invariant pendingNames == old(pendingNames) && pendingFDs == old(pendingFDs)
        invariant writer.ofs == old(writer.ofs) + Printed(pendingNames[..i])
      {
        PrintedNext(old(writer.ofs), pendingNames, i);
        writer.WriteName(pendingNames[i]);
        i := i + 1;
      }
      assert pendingNames[..i] == pendingNames;
      i := 0;
      while i < |pendingFDs|
        invariant 0 <= i <= |pendingFDs|
        invariant pendingNames == old(pendingNames) && pendingFDs == old(pendingFDs)
        invariant writer.ofs == old(writer.ofs) + Printed(pendingNames) + PrintedFds(pendingFDs[..i])
      {
        PrintedFdsNext(old(writer.ofs) + Printed(pendingNames), pendingFDs, i);
        writer.WriteFd(pendingFDs[i].0, pendingFDs[i].1);
        i := i + 1;
      }
      assert pendingFDs[..i] == pendingFDs;
      pendingNames := [];
      pendingFDs := [];
    }
  }

  lemma {:induction false} PrintedAppend(a: seq<string>, b: seq<string>)
    ensures Printed(a + b) == Printed(a) + Printed(b)
  {
    if a == [] {
      assert a + b == b;
    } else {
      assert (a + b)[1..] == a[1..] + b;
      PrintedAppend(a[1..], b);
    }
  }

  lemma {:induction false} PrintedFdsAppend(a: seq<(int, Option<string>)>, b: seq<(int, Option<string>)>)
    ensures PrintedFds(a + b) == PrintedFds(a) + PrintedFds(b)
  {
    if a == [] {
      assert a + b == b;
    } else {
      assert (a + b)[1..] == a[1..] + b;
      PrintedFdsAppend(a[1..], b);
    }
  }

  lemma PrintedNext(before: string, names: seq<string>, i: nat)
    requires i < |names|
    ensures before + Printed(names[..i + 1]) == before + Printed(names[..i]) + Line(FILE_TAG, names[i])
  {
    assert names[..i + 1] == names[..i] + [names[i]];
    PrintedAppend(names[..i], [names[i]]);
  }

  lemma PrintedFdsNext(before: string, fds: seq<(int, Option<string>)>, i: nat)
    requires i < |fds|
    ensures before + PrintedFds(fds[..i + 1]) == before + PrintedFds(fds[..i]) + PrintedFds([(fds[i].0, fds[i].1)])
  {
    assert fds[..i + 1] == fds[..i] + [(fds[i].0, fds[i].1)];
    PrintedFdsAppend(fds[..i], [(fds[i].0, fds[i].1)]);
  }

  // ---------------------------------------------------------------- reading the list back

  /** The text before the first newline. */
  function FirstLine(s: string): (line: string)
    ensures HasPrefix(s, line) && '\n' !in line
    ensures |line| < |s| ==> s[|line|] == '\n'
  {
    if s == [] || s[0] == '\n' then [] else [s[0]] + FirstLine(s[1..])
  }

  /** What repeated std::getline yields; a last line without a newline counts. */
  function Lines(s: string): seq<string>
    decreases |s|
  {
    if s == [] then []
    else
      var line := FirstLine(s);
      if |line| == |s| then [line] else [line] + Lines(s[|line| + 1..])
  }

  lemma {:induction false} FirstLineOf(body: string, rest: string)
    requires '\n' !in body
    ensures FirstLine(body + "\n" + rest) == body
  {
    var s := body + "\n" + rest;
    if body != [] {
      assert s[1..] == body[1..] + "\n" + rest;
      FirstLineOf(body[1..], rest);
    }
  }

  function Tagged(names: seq<string>): (lines: seq<string>)
    ensures |lines| == |names|
    ensures forall i :: 0 <= i < |names| ==> lines[i] == FILE_TAG + names[i]
  {
    if names == [] then [] else [FILE_TAG + names[0]] + Tagged(names[1..])
  }

  lemma {:induction false} LinesOfPrinted(names: seq<string>)
    requires forall n :: n in names ==> '\n' !in n
    ensures Lines(Printed(names)) == Tagged(names)
  {
    if names != [] {
      var body, rest := FILE_TAG + names[0], Printed(names[1..]);
      assert Printed(names) == body + "\n" + rest;
      FirstLineOf(body, rest);
      assert Printed(names)[|body| + 1..] == rest;
      LinesOfPrinted(names[1..]);
    }
  }

  function StripPrefix(entry: string): string {
    if HasPrefix(entry, FILE_TAG) then entry[|FILE_TAG|..]
    else if HasPrefix(entry, FD_TAG) then entry[|FD_TAG|..]
    else entry
  }

  function Stripped(lines: seq<string>): (r: seq<string>)
    ensures |r| == |lines| && forall i :: 0 <= i < |r| ==> r[i] == StripPrefix(lines[i])
  {
    seq(|lines|, i requires 0 <= i < |lines| => StripPrefix(lines[i]))
  }

  /** Printing then reading: the names come back, in order, whatever they look like. */
  lemma {:induction false} ListRoundTrip(names: seq<string>)
    requires forall n :: n in names ==> '\n' !in n
    ensures Stripped(Lines(Printed(names))) == names
  {
    LinesOfPrinted(names);
    forall i | 0 <= i < |names|
      ensures StripPrefix(Tagged(names)[i]) == names[i]
    {
      PrefixOfConcat(FILE_TAG, names[i]);
    }
  }

  function IsNewline(): char -> bool {
    c => c == '\n'
  }

  lemma {:induction false} NewlineCounts(s: string)
    ensures Count(s, IsNewline()) > 0 <==> '\n' in s
  {
    if s != [] {
      NewlineCounts(s[1..]);
    }
  }

  lemma FirstNewline(s: string)
    requires s != [] && s[|s| - 1] == '\n'
    ensures var line := FirstLine(s);
            && |line| < |s| && s == line + (['\n'] + s[|line| + 1..])
            && (|line| + 1 == |s| || s[|line| + 1..][|s| - |line| - 2] == '\n')
  {}

  /** A text that ends in a newline has as many lines as newlines. */
  lemma {:induction false} LinesCount(s: string)
    requires s == [] || s[|s| - 1] == '\n'
    ensures |Lines(s)| == Count(s, IsNewline())
    decreases |s|
  {
    if s != [] {
      var line := FirstLine(s);
      FirstNewline(s);
      NewlineCounts(line);
      var rest := s[|line| + 1..];
      CountMiddle(line, '\n', rest, IsNewline());
      CountSplit(line, rest, IsNewline());
      LinesCount(rest);
    }
  }

  /** Every name costs one newline, and more if it holds one itself. */
  lemma {:induction false} PrintedCount(names: seq<string>)
    ensures Count(Printed(names), IsNewline()) >= |names|
    ensures (exists n :: n in names && '\n' in n) ==> Count(Printed(names), IsNewline()) > |names|
    ensures Printed(names) == [] || Printed(names)[|Printed(names)| - 1] == '\n'
  {
    if names != [] {
      CountSplit(Line(FILE_TAG, names[0]), Printed(names[1..]), IsNewline());
      CountAppend(FILE_TAG + names[0], '\n', IsNewline());
      CountSplit(FILE_TAG, names[0], IsNewline());
      NewlineCounts(names[0]);
      PrintedCount(names[1..]);
      assert forall n :: n in names ==> n == names[0] || n in names[1..];
    }
  }

  /** Reading back what was printed yields the names exactly if none of them holds a newline. */
  lemma ListRoundTripIff(names: seq<string>)
    ensures Stripped(Lines(Printed(names))) == names <==> forall n :: n in names ==> '\n' !in n
  {
    if forall n :: n in names ==> '\n' !in n {
      ListRoundTrip(names);
    } else {
      PrintedCount(names);
      LinesCount(Printed(names));
    }
  }

  // ---------------------------------------------------------------- the watcher

  /** One call of uploadFile: for which line, with which path, and whether it returned. */
  datatype Call = Call(entry: string, path: string, returned: bool)

  datatype Watch = Watch(uploaded: set<string>, calls: seq<Call>)

  /** std::ifstream over a snapshot of the list. */
  class LineReader {
    const text: string
    var pos: nat

    ghost predicate Valid()
      reads this
    {
      pos <= |text|
    }

    constructor (text: string)
      ensures Valid() && this.text == text && pos == 0
    {
      this.text := text;
      pos := 0;
    }

    method GetLine() returns (ok: bool, line: string)
      requires Valid()
      modifies this
      ensures Valid()
      ensures ok == (old(pos) < |text|)
      ensures ok ==> Lines(text[old(pos)..]) == [line] + Lines(text[pos..]) && old(pos) < pos
      ensures !ok ==> pos == old(pos)
    {
      if pos == |text| {
        return false, "";
      }
      line := FirstLine(text[pos..]);
      var next := pos + |line|;
      if next == |text| {
        assert text[next..] == [];
        pos := next;
      } else {
        assert text[pos..][|line| + 1..] == text[next + 1..];
        pos := next + 1;
      }
      ok := true;
    }
  }

  /** One line of one scan; `fails(k)` says that the k-th call of uploadFile throws. */
  function OneLine(w: Watch, line: string, fails: nat -> bool): Watch {
    if line == "" || line in w.uploaded then w
    else
      var returned := !fails(|w.calls|);
      Watch(if returned then w.uploaded + {line} else w.uploaded,
            w.calls + [Call(line, StripPrefix(line), returned)])
  }

  function Scan(w: Watch, lines: seq<string>, fails: nat -> bool): Watch
    decreases |lines|
  {
    if lines == [] then w else Scan(OneLine(w, lines[0], fails), lines[1..], fails)
  }

  class TransferListWatcher {
    var uploaded: set<string>
    var calls: seq<Call>

    constructor ()
      ensures Abs() == Watch({}, [])
    {
      uploaded, calls := {}, [];
    }

    ghost function Abs(): Watch
      reads this
    {
      Watch(uploaded, calls)
    }

    /** One line of the list; a throw is caught, and the line is not remembered. */
    method UploadLine(line: string, fails: nat -> bool)
      modifies this
      ensures Abs() == OneLine(old(Abs()), line, fails)
    {
      if line != "" && line !in uploaded {
        var path := StripPrefix(line);
        if fails(|calls|) {
          calls := calls + [Call(line, path, false)];
        } else {
          calls := calls + [Call(line, path, true)];
          uploaded := uploaded + {line};
        }
      }
    }

    /** A list that cannot be opened is skipped. */
    method ScanAndUpload(list: Option<string>, fails: nat -> bool)
      modifies this
      ensures Abs() == match list
                       case None => old(Abs())
                       case Some(text) => Scan(old(Abs()), Lines(text), fails)
    {
      if list.None? {
        return;
      }
      var ifs := new LineReader(list.value);
      assert list.value[0..] == list.value;
      var ok, line := ifs.GetLine();
      while ok
        invariant ifs.Valid()
        invariant Scan(old(Abs()), Lines(list.value), fails)
               == Scan(Abs(), (if ok then [line] else []) + Lines(ifs.text[ifs.pos..]), fails)
        invariant !ok ==> ifs.pos == |ifs.text|
        modifies this, ifs
        decreases ok, |ifs.text| - ifs.pos
      {
        ghost var rest := Lines(ifs.text[ifs.pos..]);
        assert ([line] + rest)[1..] == rest;
        UploadLine(line, fails);
        ok, line := ifs.GetLine();
        assert [] + Lines(ifs.text[ifs.pos..]) == Lines(ifs.text[ifs.pos..]);
      }
    }
  }

  /** A whole run of the watcher: one snapshot of the list per scan. */
  function Watched(w: Watch, snapshots: seq<Option<string>>, fails: nat -> bool): Watch
    decreases |snapshots|
  {
    if snapshots == [] then w
    else
      var next := if snapshots[0].None? then w else Scan(w, Lines(snapshots[0].value), fails);
      Watched(next, snapshots[1..], fails)
  }

  /** The lines a run ever looks at, scan after scan. */
  function LinesSeen(snapshots: seq<Option<string>>): seq<string> {
    if snapshots == [] then []
    else (if snapshots[0].None? then [] else Lines(snapshots[0].value)) + LinesSeen(snapshots[1..])
  }

  lemma {:induction false} ScanAppend(w: Watch, a: seq<string>, b: seq<string>, fails: nat -> bool)
    ensures Scan(w, a + b, fails) == Scan(Scan(w, a, fails), b, fails)
    decreases |a|
  {
    if a == [] {
      assert a + b == b;
    } else {
      assert (a + b)[1..] == a[1..] + b;
      ScanAppend(OneLine(w, a[0], fails), a[1..], b, fails);
    }
  }

  lemma {:induction false} WatchedIsOneScan(w: Watch, snapshots: seq<Option<string>>, fails: nat -> bool)
    ensures Watched(w, snapshots, fails) == Scan(w, LinesSeen(snapshots), fails)
    decreases |snapshots|
  {
    if snapshots != [] {
      var lines := if snapshots[0].None? then [] else Lines(snapshots[0].value);
      WatchedIsOneScan(Scan(w, lines, fails), snapshots[1..], fails);
      ScanAppend(w, lines, LinesSeen(snapshots[1..]), fails);
    }
  }

  /** The non-empty lines, each kept where it occurs first; `seen` are left out. */
  function FirstOccurrences(lines: seq<string>, seen: set<string>): (r: seq<string>)
    ensures forall x :: x in r <==> x in lines && x != "" && x !in seen
    ensures forall i, j :: 0 <= i < j < |r| ==> r[i] != r[j]
  {
    if lines == [] then []
    else if lines[0] == "" || lines[0] in seen then FirstOccurrences(lines[1..], seen)
    else
      var rest := FirstOccurrences(lines[1..], seen + {lines[0]});
      assert forall x :: x in lines <==> x == lines[0] || x in lines[1..];
      [lines[0]] + rest
  }

  function Entries(calls: seq<Call>): (r: seq<string>)
    ensures |r| == |calls| && forall i :: 0 <= i < |r| ==> r[i] == calls[i].entry
  {
    seq(|calls|, i requires 0 <= i < |calls| => calls[i].entry)
  }

  function Paths(calls: seq<Call>): (r: seq<string>)
    ensures |r| == |calls| && forall i :: 0 <= i < |r| ==> r[i] == calls[i].path
  {
    seq(|calls|, i requires 0 <= i < |calls| => calls[i].path)
  }

  lemma {:induction false} ScanWithoutFailures(w: Watch, lines: seq<string>, fails: nat -> bool)
    requires forall k :: !fails(k)
    ensures Scan(w, lines, fails).uploaded == w.uploaded + (set x | x in lines && x != "")
    ensures Entries(Scan(w, lines, fails).calls) == Entries(w.calls) + FirstOccurrences(lines, w.uploaded)
    decreases |lines|
  {
    if lines != [] {
      var next := OneLine(w, lines[0], fails);
      ScanWithoutFailures(next, lines[1..], fails);
      assert lines == [lines[0]] + lines[1..];
      if next != w {
        assert Entries(next.calls) == Entries(w.calls) + [lines[0]];
        var rest := FirstOccurrences(lines[1..], next.uploaded);
        assert Entries(w.calls) + [lines[0]] + rest == Entries(w.calls) + ([lines[0]] + rest);
      }
    }
  }

  /**
   Exactly once: when uploadFile never throws, a run makes one call for each distinct non-empty
   line that some scan saw, in the order of first sight, however the list grew in between.
   */
  lemma {:induction false} ExactlyOnce(snapshots: seq<Option<string>>, fails: nat -> bool)
    requires forall k :: !fails(k)
    ensures var calls := Watched(Watch({}, []), snapshots, fails).calls;
            && Entries(calls) == FirstOccurrences(LinesSeen(snapshots), {})
            && (forall i, j :: 0 <= i < j < |calls| ==> calls[i].entry != calls[j].entry)
            && (forall x :: x != "" ==> (x in LinesSeen(snapshots) <==> x in Entries(calls)))
  {
    WatchedIsOneScan(Watch({}, []), snapshots, fails);
    ScanWithoutFailures(Watch({}, []), LinesSeen(snapshots), fails);
    var calls := Watched(Watch({}, []), snapshots, fails).calls;
    assert Entries(calls) == FirstOccurrences(LinesSeen(snapshots), {});
    forall i, j | 0 <= i < j < |calls|
      ensures calls[i].entry != calls[j].entry
    {
      assert Entries(calls)[i] != Entries(calls)[j];
    }
  }

  /** What holds of every run, throwing or not: a line is retried until a call returns, then never again. */
  ghost predicate WatchInvariant(w: Watch) {
    && (forall c :: c in w.calls ==> c.path == StripPrefix(c.entry) && c.entry != "")
    && (forall i, j :: 0 <= i < j < |w.calls| && w.calls[i].returned ==> w.calls[j].entry != w.calls[i].entry)
    && (forall x :: x in w.uploaded <==> exists i :: 0 <= i < |w.calls| && w.calls[i].entry == x && w.calls[i].returned)
  }

  lemma OneLineKeeps(w: Watch, line: string, fails: nat -> bool)
    requires WatchInvariant(w)
    ensures WatchInvariant(OneLine(w, line, fails))
  {
    var v := OneLine(w, line, fails);
    if v != w {
      var last := |w.calls|;
      assert v.calls[last].entry == line;
      forall x ensures x in v.uploaded <==> exists i :: 0 <= i < |v.calls| && v.calls[i].entry == x && v.calls[i].returned {
        if x in w.uploaded {
          var i :| 0 <= i < |w.calls| && w.calls[i].entry == x && w.calls[i].returned;
          assert v.calls[i] == w.calls[i];
        }
        if i :| 0 <= i < |v.calls| && v.calls[i].entry == x && v.calls[i].returned {
          if i < last {
            assert w.calls[i] == v.calls[i];
          }
        }
      }
    }
  }

  lemma {:induction false} ScanKeeps(w: Watch, lines: seq<string>, fails: nat -> bool)
    requires WatchInvariant(w)
    ensures WatchInvariant(Scan(w, lines, fails))
    decreases |lines|
  {
    if lines != [] {
      OneLineKeeps(w, lines[0], fails);
      ScanKeeps(OneLine(w, lines[0], fails), lines[1..], fails);
    }
  }

  /**
   Every scan tries every line that has not been uploaded, whatever has thrown before: a line that is not
   remembered gets a call of its own, the k-th call returns unless it throws, and exactly the lines with a call
   that returned are remembered.
   */
  lemma {:induction false} EveryLineIsTried(w: Watch, lines: seq<string>, fails: nat -> bool, x: string)
    ensures var v := Scan(w, lines, fails);
            && w.calls <= v.calls
            && (x in lines && x != "" && x !in w.uploaded ==> exists i :: |w.calls| <= i < |v.calls| && v.calls[i].entry == x)
            && (forall i :: |w.calls| <= i < |v.calls| ==> v.calls[i].entry in lines && (v.calls[i].returned <==> !fails(i)))
            && (x in v.uploaded <==> x in w.uploaded || exists i :: |w.calls| <= i < |v.calls| && v.calls[i].entry == x && v.calls[i].returned)
    decreases |lines|
  {
    if lines != [] {
      var next, v := OneLine(w, lines[0], fails), Scan(w, lines, fails);
      EveryLineIsTried(next, lines[1..], fails, x);
      assert lines == [lines[0]] + lines[1..];
      if next != w {
        assert v.calls[|w.calls|] == next.calls[|w.calls|];
      }
    }
  }

  /** Over any run with any throws, no line is uploaded again once a call for it returned. */
  lemma AtMostOneReturn(snapshots: seq<Option<string>>, fails: nat -> bool)
    ensures WatchInvariant(Watched(Watch({}, []), snapshots, fails))
  {
    WatchedIsOneScan(Watch({}, []), snapshots, fails);
    ScanKeeps(Watch({}, []), LinesSeen(snapshots), fails);
  }

  // ---------------------------------------------------------------- both ends together

  /** The list after each batch of finished uploads, as the scans see it. */
  function Growing(done: seq<string>, batches: seq<seq<string>>): seq<Option<string>>
    decreases |batches|
  {
    if batches == [] then [] else [Some(Printed(done + batches[0]))] + Growing(done + batches[0], batches[1..])
  }

  function Flat(batches: seq<seq<string>>): seq<string> {
    if batches == [] then [] else batches[0] + Flat(batches[1..])
  }

  lemma {:induction false} ScanSeenAgain(w: Watch, lines: seq<string>, fails: nat -> bool)
    requires forall x :: x in lines && x != "" ==> x in w.uploaded
    ensures Scan(w, lines, fails) == w
    decreases |lines|
  {
    if lines != [] {
      ScanSeenAgain(w, lines[1..], fails);
    }
  }

  lemma TaggedAppend(a: seq<string>, b: seq<string>)
    ensures Tagged(a + b) == Tagged(a) + Tagged(b)
  {}

  /** One more scan after one more batch does what scanning the batch alone would do. */
  lemma ScanOfGrownList(w: Watch, done: seq<string>, b: seq<string>, fails: nat -> bool)
    requires forall n :: n in done + b ==> '\n' !in n
    requires forall x :: x in Tagged(done) ==> x in w.uploaded
    ensures Scan(w, Lines(Printed(done + b)), fails) == Scan(w, Tagged(b), fails)
  {
    LinesOfPrinted(done + b);
    TaggedAppend(done, b);
    ScanAppend(w, Tagged(done), Tagged(b), fails);
    ScanSeenAgain(w, Tagged(done), fails);
  }

  lemma {:induction false} GrowingIsOneScan(done: seq<string>, batches: seq<seq<string>>, w: Watch, fails: nat -> bool)
    requires forall k :: !fails(k)
    requires forall n :: n in done + Flat(batches) ==> '\n' !in n
    requires forall x :: x in Tagged(done) ==> x in w.uploaded
    ensures Watched(w, Growing(done, batches), fails) == Scan(w, Tagged(Flat(batches)), fails)
    decreases |batches|
  {
    if batches != [] {
      var b, later := batches[0], batches[1..];
      assert done + Flat(batches) == (done + b) + Flat(later);
      ScanOfGrownList(w, done, b, fails);
      var next := Scan(w, Tagged(b), fails);
      ScanWithoutFailures(w, Tagged(b), fails);
      TaggedAppend(done, b);
      GrowingIsOneScan(done + b, later, next, fails);
      TaggedAppend(b, Flat(later));
      ScanAppend(w, Tagged(b), Tagged(Flat(later)), fails);
      assert Watched(w, Growing(done, batches), fails) == Watched(next, Growing(done + b, later), fails) by {
        assert Growing(done, batches)[1..] == Growing(done + b, later);
      }
    }
  }

  lemma {:induction false} FirstOccurrencesOfTagged(names: seq<string>, seen: seq<string>)
    ensures FirstOccurrences(Tagged(names), set x | x in Tagged(seen)) == Tagged(Distinct(names, seen))
    decreases |names|
  {
    if names != [] {
      var n := names[0];
      assert Tagged(names)[1..] == Tagged(names[1..]);
      assert FILE_TAG + n in Tagged(seen) <==> n in seen by {
        if FILE_TAG + n in Tagged(seen) {
          var i :| 0 <= i < |seen| && FILE_TAG + n == Tagged(seen)[i];
          PrefixOfConcat(FILE_TAG, n);
          PrefixOfConcat(FILE_TAG, seen[i]);
        }
        if n in seen {
          var i :| 0 <= i < |seen| && seen[i] == n;
          assert Tagged(seen)[i] == FILE_TAG + n;
        }
      }
      if n in seen {
        FirstOccurrencesOfTagged(names[1..], seen);
      } else {
        assert Tagged(seen + [n]) == Tagged(seen) + [FILE_TAG + n];
        assert (set x | x in Tagged(seen + [n])) == (set x | x in Tagged(seen)) + {FILE_TAG + n};
        FirstOccurrencesOfTagged(names[1..], seen + [n]);
        assert Tagged([n] + Distinct(names[1..], seen + [n])) == [FILE_TAG + n] + Tagged(Distinct(names[1..], seen + [n]));
      }
    }
  }

  /** The names without repetitions, in order. */
  function Distinct(names: seq<string>, seen: seq<string>): (r: seq<string>)
    ensures forall x :: x in r <==> x in names && x !in seen
    ensures forall i, j :: 0 <= i < j < |r| ==> r[i] != r[j]
    decreases |names|
  {
    if names == [] then []
    else if names[0] in seen then Distinct(names[1..], seen)
    else
      var rest := Distinct(names[1..], seen + [names[0]]);
      assert forall x :: x in names <==> x == names[0] || x in names[1..];
      assert names[0] !in rest;
      [names[0]] + rest
  }

  /**
   From finished upload to transfer: whatever batches the tasks append and however the scans fall
   between them, the paths uploaded are the finished names, each once, in order of completion.
   */
  lemma {:induction false} EveryFinishedNameOnce(batches: seq<seq<string>>, fails: nat -> bool)
    requires forall k :: !fails(k)
    requires forall n :: n in Flat(batches) ==> '\n' !in n
    ensures Paths(Watched(Watch({}, []), Growing([], batches), fails).calls) == Distinct(Flat(batches), [])
  {
    var w, names := Watch({}, []), Flat(batches);
    assert [] + names == names;
    GrowingIsOneScan([], batches, w, fails);
    ScanWithoutFailures(w, Tagged(names), fails);
    FirstOccurrencesOfTagged(names, []);
    ScanKeeps(w, Tagged(names), fails);
    var calls, r := Scan(w, Tagged(names), fails).calls, Distinct(names, []);
    assert (set x | x in Tagged([])) == {};
    assert Entries(calls) == Tagged(r);
    forall i | 0 <= i < |calls|
      ensures calls[i].path == r[i]
    {
      assert calls[i] in calls;
      assert calls[i].entry == Entries(calls)[i] == FILE_TAG + r[i];
      PrefixOfConcat(FILE_TAG, r[i]);
    }
  }
}
