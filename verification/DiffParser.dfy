/**
 The patch-coverage gate's reader of unified diffs.

 Inside a hunk the prefixes of lines are ambiguous: an added line may read like a
 file header. The reader therefore counts. `DiffIsRead` shows that it inverts the
 writer: whatever the body lines hold, the result is exactly the added lines'
 numbers in the new file, for every source path the gate watches.
 */
module DiffParser {
  import opened Wrappers
  import opened Strings
  import opened Names
  import opened Timestamps

  // ------------------------------------------------------------------ reading

  /** The counts and the new start a hunk header states. */
  datatype HunkHeader = HunkHeader(before: nat, start: nat, now: nat)

  /** A number and what follows it. */
  function ReadNumber(s: string): Option<(nat, string)> {
    var n := DigitRun(s);
    if n == 0 then None
    else
      RunIsDigits(s);
      Some((Value(s[..n]), s[n..]))
  }

  lemma {:induction false} RunIsDigits(s: string)
    ensures forall c :: c in s[..DigitRun(s)] ==> IsDigit(c)
  {
    if s != "" && IsDigit(s[0]) {
      RunIsDigits(s[1..]);
      assert s[..DigitRun(s)] == [s[0]] + s[1..][..DigitRun(s[1..])];
    }
  }

  /** `start` or `start,count`; the count is one when it is left out. */
  function ReadRange(s: string): Option<(nat, nat, string)> {
    match ReadNumber(s)
    case None => None
    case Some((start, rest)) =>
      if rest != "" && rest[0] == ',' then
        match ReadNumber(rest[1..])
        case Some((count, after)) => Some((start, count, after))
        case None => Some((start, 1, rest))
      else Some((start, 1, rest))
  }

  function ReadHunk(line: string): Option<HunkHeader> {
    if !("@@ -" <= line) then None
    else
      match ReadRange(line[4..])
      case None => None
      case Some((_, before, rest)) =>
        if !(" +" <= rest) then None
        else
          match ReadRange(rest[2..])
          case None => None
          case Some((start, now, after)) => if " @@" <= after then Some(HunkHeader(before, start, now)) else None
  }

  /** A path the gate watches: `crates/<name>/src/` and something ending in `.rs`, on one line. */
  predicate IsChangedSource(path: string) {
    && "crates/" <= path
    && var name := UpTo(path[7..], '/');
       && name != "" && var rest := path[7 + |name|..];
          && "/src/" <= rest && |rest| >= 8 && rest[|rest| - 3..] == ".rs" && '\n' !in rest[5..]
  }

  function PathOf(line: string): Option<string>
    requires "+++ " <= line
  {
    var path := UpTo(line[4..], '\t');
    if path == "/dev/null" then None
    else
      var stripped := if "b/" <= path then path[2..] else path;
      if IsChangedSource(stripped) then Some(stripped) else None
  }

  datatype State = State(file: Option<string>, inHeader: bool, line: int, before: int, now: int, changed: map<string, set<int>>)

  const START: State := State(None, false, 0, 0, 0, map[])

  function Mark(changed: map<string, set<int>>, file: string, line: int): map<string, set<int>> {
    changed[file := (if file in changed then changed[file] else {}) + {line}]
  }

  /** One line of the diff. */
  function Step(s: State, line: string): State {
    if s.before != 0 || s.now != 0 then
      if "\\" <= line then s
      else if "+" <= line then
        s.(changed := if s.file.Some? then Mark(s.changed, s.file.value, s.line) else s.changed, line := s.line + 1, now := s.now - 1)
      else if "-" <= line then s.(before := s.before - 1)
      else s.(line := s.line + 1, now := s.now - 1, before := s.before - 1)
    else if "diff --git " <= line then s.(inHeader := true, file := None)
    else
      match ReadHunk(line)
      case Some(h) => s.(inHeader := false, before := h.before, line := h.start, now := h.now)
      case None => if s.inHeader && "+++ " <= line then s.(file := PathOf(line)) else s
  }

  function Steps(s: State, lines: seq<string>): State
    decreases |lines|
  {
    if lines == [] then s else Steps(Step(s, lines[0]), lines[1..])
  }

  function ParseUnifiedDiff(lines: seq<string>): map<string, set<int>> {
    Steps(START, lines).changed
  }

  method ReadUnifiedDiff(lines: seq<string>) returns (changed: map<string, set<int>>)
    ensures changed == ParseUnifiedDiff(lines)
  {
    hide ReadHunk, PathOf;
    changed := map[];
    var currentFile: Option<string> := None;
    var inHeader := false;
    var lineno: int, remainingOld: int, remainingNew: int := 0, 0, 0;
    var i := 0;
    while i < |lines|
      invariant i <= |lines|
      invariant Steps(State(currentFile, inHeader, lineno, remainingOld, remainingNew, changed), lines[i..]) == Steps(START, lines)
    {
      assert lines[i..][1..] == lines[i + 1..];
      var line := lines[i];
      i := i + 1;
      if remainingOld != 0 || remainingNew != 0 {
        if "\\" <= line {
          continue;
        }
        if "+" <= line {
          if currentFile.Some? {
            changed := Mark(changed, currentFile.value, lineno);
          }
          lineno := lineno + 1;
          remainingNew := remainingNew - 1;
        } else if "-" <= line {
          remainingOld := remainingOld - 1;
        } else {
          lineno := lineno + 1;
          remainingNew := remainingNew - 1;
          remainingOld := remainingOld - 1;
        }
        continue;
      }
      if "diff --git " <= line {
        inHeader := true;
        currentFile := None;
        continue;
      }
      var hunk := ReadHunk(line);
      if hunk.Some? {
        inHeader := false;
        remainingOld := hunk.value.before;
        lineno := hunk.value.start;
        remainingNew := hunk.value.now;
        continue;
      }
      if inHeader && "+++ " <= line {
        currentFile := PathOf(line);
      }
    }
  }

  // ------------------------------------------------------------------ writing

  datatype Line = Added(text: string) | Removed(text: string) | Context(text: string) | Marker(text: string)

  /** A range; a count of one may be left out. */
  datatype Range = Range(start: nat, count: nat, short: bool)

  datatype Hunk = Hunk(before: Range, now: Range, section: string, body: seq<Line>)

  /** The new file's name: a path, `/dev/null`, or no `+++` line at all. */
  datatype NewName = Path(path: string, tab: bool) | Deleted | Unnamed

  datatype FileDiff = FileDiff(command: string, headers: seq<string>, name: NewName, hunks: seq<Hunk>)

  function WriteLine(l: Line): string {
    match l
    case Added(text) => "+" + text
    case Removed(text) => "-" + text
    case Context(text) => " " + text
    case Marker(text) => "\\" + text
  }

  function WriteBody(body: seq<Line>): seq<string> {
    if body == [] then [] else [WriteLine(body[0])] + WriteBody(body[1..])
  }

  function WriteRange(r: Range): string {
    if r.short then Decimal(r.start) else Decimal(r.start) + "," + Decimal(r.count)
  }

  function WriteHunkHeader(h: Hunk): string {
    "@@ -" + WriteRange(h.before) + " +" + WriteRange(h.now) + " @@" + h.section
  }

  function WriteHunks(hunks: seq<Hunk>): seq<string> {
    if hunks == [] then [] else [WriteHunkHeader(hunks[0])] + WriteBody(hunks[0].body) + WriteHunks(hunks[1..])
  }

  function WriteName(n: NewName): seq<string> {
    match n
    case Path(path, tab) => ["+++ b/" + path + (if tab then "\t" else "")]
    case Deleted => ["+++ /dev/null"]
    case Unnamed => []
  }

  function WriteFile(f: FileDiff): seq<string> {
    ["diff --git " + f.command] + f.headers + WriteName(f.name) + WriteHunks(f.hunks)
  }

  function WriteDiff(files: seq<FileDiff>): seq<string> {
    if files == [] then [] else WriteFile(files[0]) + WriteDiff(files[1..])
  }

  /** Lines of the old file, and of the new one, in a body. */
  function Olds(body: seq<Line>): nat {
    if body == [] then 0 else (if body[0].Removed? || body[0].Context? then 1 else 0) + Olds(body[1..])
  }

  function News(body: seq<Line>): nat {
    if body == [] then 0 else (if body[0].Added? || body[0].Context? then 1 else 0) + News(body[1..])
  }

  /** The counts a header states are the body's own. */
  predicate ProperHunk(h: Hunk) {
    && Olds(h.body) == h.before.count && News(h.body) == h.now.count
    && (h.before.short ==> h.before.count == 1) && (h.now.short ==> h.now.count == 1)
  }

  /** A header line is none of the lines the reader looks for. */
  predicate PlainHeader(line: string) {
    !("diff --git " <= line) && !("+++ " <= line) && ReadHunk(line).None?
  }

  predicate ProperFile(f: FileDiff) {
    && (forall h :: h in f.headers ==> PlainHeader(h))
    && (forall h :: h in f.hunks ==> ProperHunk(h))
    && (f.name.Path? ==> '\t' !in f.name.path)
    && (f.name.Unnamed? ==> f.hunks == [])
  }

  // -------------------------------------------------------------- what is meant

  /** The numbers, from `line` on, of the added lines of a body. */
  function AddedIn(body: seq<Line>, line: int): set<int> {
    if body == [] then {}
    else
      (if body[0].Added? then {line} else {})
      + AddedIn(body[1..], if body[0].Added? || body[0].Context? then line + 1 else line)
  }

  function AddedInHunks(hunks: seq<Hunk>): set<int> {
    if hunks == [] then {} else AddedIn(hunks[0].body, hunks[0].now.start) + AddedInHunks(hunks[1..])
  }

  /** The lines a diff adds to one path. */
  function AddedTo(files: seq<FileDiff>, path: string): set<int> {
    if files == [] then {}
    else (if files[0].name.Path? && files[0].name.path == path then AddedInHunks(files[0].hunks) else {}) + AddedTo(files[1..], path)
  }

  /** A result that holds, for every watched path, exactly the given lines more than `before`. */
  ghost predicate Marks(before: map<string, set<int>>, after: map<string, set<int>>, file: Option<string>, lines: set<int>) {
    forall path :: LinesOf(after, path) == LinesOf(before, path) + (if file == Some(path) then lines else {})
                   && (path in after <==> path in before || (file == Some(path) && lines != {}))
  }

  function LinesOf(changed: map<string, set<int>>, path: string): set<int> {
    if path in changed then changed[path] else {}
  }

  // ------------------------------------------------------------------ the proofs

  lemma {:induction false} StepsConcat(s: State, a: seq<string>, b: seq<string>)
    ensures Steps(s, a + b) == Steps(Steps(s, a), b)
    decreases |a|
  {
    hide Step;
    if a == [] {
      assert a + b == b;
    } else {
      assert (a + b)[1..] == a[1..] + b;
      StepsConcat(Step(s, a[0]), a[1..], b);
    }
  }

  lemma NumberIsRead(n: nat, rest: string)
    requires rest == "" || !IsDigit(rest[0])
    ensures ReadNumber(Decimal(n) + rest) == Some((n, rest))
  {
    DecimalValue(n);
    DecimalDigits(n);
    var s := Decimal(n) + rest;
    if rest == "" {
      assert s == Decimal(n) && s + "." == Decimal(n) + ".";
      WholeRun(Decimal(n));
    } else {
      RunStops(Decimal(n), rest);
    }
    assert s[..|Decimal(n)|] == Decimal(n) && s[|Decimal(n)|..] == rest;
  }

  lemma {:induction false} WholeRun(s: string)
    requires AllDigits(s)
    ensures DigitRun(s) == |s|
  {
    if s != "" {
      assert forall c :: c in s[1..] ==> c in s;
      WholeRun(s[1..]);
    }
  }

  lemma RangeIsRead(r: Range, rest: string)
    requires (r.short ==> r.count == 1) && rest != "" && !IsDigit(rest[0]) && rest[0] != ','
    ensures ReadRange(WriteRange(r) + rest) == Some((r.start, r.count, rest))
  {
    hide ReadNumber, Decimal;
    if r.short {
      NumberIsRead(r.start, rest);
    } else {
      var tail := Decimal(r.count) + rest;
      NumberIsRead(r.count, rest);
      NumberIsRead(r.start, "," + tail);
      assert ("," + tail)[1..] == tail;
      assert Decimal(r.start) + "," + Decimal(r.count) + rest == Decimal(r.start) + ("," + tail);
    }
  }

  /** A hunk header is read back. */
  lemma HunkIsRead(h: Hunk)
    requires ProperHunk(h)
    ensures ReadHunk(WriteHunkHeader(h)) == Some(HunkHeader(h.before.count, h.now.start, h.now.count))
    ensures !("diff --git " <= WriteHunkHeader(h))
  {
    hide ReadRange, WriteRange, Olds, News;
    var line := WriteHunkHeader(h);
    var after := " @@" + h.section;
    var middle := " +" + (WriteRange(h.now) + after);
    RangeIsRead(h.now, after);
    RangeIsRead(h.before, middle);
    Pieces5(WriteRange(h.before), WriteRange(h.now), h.section);
    assert line == "@@ -" + (WriteRange(h.before) + middle);
    assert line[4..] == WriteRange(h.before) + middle && line[0] == '@';
    assert middle[2..] == WriteRange(h.now) + after;
  }

  lemma Pieces5(old': string, now: string, section: string)
    ensures "@@ -" + old' + " +" + now + " @@" + section == "@@ -" + (old' + (" +" + (now + (" @@" + section))))
  {}

  predicate InBody(s: State, body: seq<Line>) {
    s.before == Olds(body) && s.now == News(body)
  }

  lemma MarkIsMarks(changed: map<string, set<int>>, file: string, line: int)
    ensures Marks(changed, Mark(changed, file, line), Some(file), {line})
  {}

  lemma NothingMarks(changed: map<string, set<int>>, file: Option<string>)
    ensures Marks(changed, changed, file, {})
  {}

  lemma MarksJoin(a: map<string, set<int>>, b: map<string, set<int>>, c: map<string, set<int>>, file: Option<string>,
                  first: set<int>, second: set<int>)
    requires Marks(a, b, file, first) && Marks(b, c, file, second)
    ensures Marks(a, c, file, first + second)
  {
    forall path
      ensures LinesOf(c, path) == LinesOf(a, path) + (if file == Some(path) then first + second else {})
      ensures path in c <==> path in a || (file == Some(path) && first + second != {})
    {
      assert LinesOf(c, path) == LinesOf(b, path) + (if file == Some(path) then second else {});
      assert LinesOf(b, path) == LinesOf(a, path) + (if file == Some(path) then first else {});
      EitherEmpty(first, second);
    }
  }

  lemma EitherEmpty(a: set<int>, b: set<int>)
    ensures a + b != {} <==> a != {} || b != {}
  {
    assert a <= a + b && b <= a + b;
    if a + b == {} {
      assert forall x :: x in a || x in b ==> x in a + b;
    }
  }

  /** A marker outside a hunk's counts is no line the reader knows. */
  lemma MarkerIsNothing(s: State, text: string)
    ensures Step(s, "\\" + text) == s
  {
    var line := "\\" + text;
    assert line[0] == '\\';
  }

  lemma BodyStep(s: State, l: Line)
    requires !l.Marker? ==> s.before != 0 || s.now != 0
    ensures var r := Step(s, WriteLine(l));
            && r.file == s.file && r.inHeader == s.inHeader
            && r.before == s.before - (if l.Removed? || l.Context? then 1 else 0)
            && r.now == s.now - (if l.Added? || l.Context? then 1 else 0)
            && r.line == s.line + (if l.Added? || l.Context? then 1 else 0)
            && Marks(s.changed, r.changed, s.file, if l.Added? then {s.line} else {})
  {
    var line := WriteLine(l);
    hide ReadHunk, PathOf, Marks, Mark;
    NothingMarks(s.changed, s.file);
    NothingMarks(s.changed, None);
    match l {
      case Added(text) =>
        assert line[0] == '+';
        if s.file.Some? { MarkIsMarks(s.changed, s.file.value, s.line); } else { NoFileMarks(s.changed, {s.line}); }
      case Removed(text) => assert line[0] == '-';
      case Context(text) => assert line[0] == ' ';
      case Marker(text) => MarkerIsNothing(s, text);
    }
  }

  lemma NoFileMarks(changed: map<string, set<int>>, lines: set<int>)
    ensures Marks(changed, changed, None, lines)
  {}

  /** A hunk's body, whatever its lines say. */
  lemma {:induction false} BodyIsRead(s: State, body: seq<Line>)
    requires InBody(s, body)
    ensures var r := Steps(s, WriteBody(body));
            && r.file == s.file && r.inHeader == s.inHeader && r.before == 0 && r.now == 0
            && Marks(s.changed, r.changed, s.file, AddedIn(body, s.line))
    decreases |body|
  {
    hide Step, Marks, WriteLine;
    if body == [] {
      NothingMarks(s.changed, s.file);
    } else {
      BodyStep(s, body[0]);
      var next := Step(s, WriteLine(body[0]));
      BodyIsRead(next, body[1..]);
      var first: set<int> := if body[0].Added? then {s.line} else {};
      MarksJoin(s.changed, next.changed, Steps(next, WriteBody(body[1..])).changed, s.file, first, AddedIn(body[1..], next.line));
      assert WriteBody(body)[1..] == WriteBody(body[1..]);
    }
  }

  /** Between hunks nothing is left to count. */
  predicate Idle(s: State) {
    s.before == 0 && s.now == 0
  }

  lemma HunkStep(s: State, h: Hunk)
    requires Idle(s) && ProperHunk(h)
    ensures Step(s, WriteHunkHeader(h)) == s.(inHeader := false, before := h.before.count, line := h.now.start, now := h.now.count)
  {
    hide ReadHunk, PathOf, WriteHunkHeader;
    HunkIsRead(h);
  }

  lemma {:induction false} HunksAreRead(s: State, hunks: seq<Hunk>)
    requires Idle(s) && forall h :: h in hunks ==> ProperHunk(h)
    ensures var r := Steps(s, WriteHunks(hunks));
            Idle(r) && r.file == s.file && Marks(s.changed, r.changed, s.file, AddedInHunks(hunks))
    decreases |hunks|
  {
    hide Step, Marks, WriteHunkHeader;
    if hunks == [] {
      NothingMarks(s.changed, s.file);
    } else {
      var h := hunks[0];
      assert h in hunks && forall x :: x in hunks[1..] ==> x in hunks;
      HunkStep(s, h);
      var opened' := s.(inHeader := false, before := h.before.count, line := h.now.start, now := h.now.count);
      BodyIsRead(opened', h.body);
      var after := Steps(opened', WriteBody(h.body));
      HunksAreRead(after, hunks[1..]);
      var final := Steps(after, WriteHunks(hunks[1..]));
      MarksJoin(s.changed, after.changed, final.changed, s.file, AddedIn(h.body, h.now.start), AddedInHunks(hunks[1..]));
      var lines := WriteHunks(hunks);
      assert lines == [WriteHunkHeader(h)] + (WriteBody(h.body) + WriteHunks(hunks[1..]));
      assert lines[1..] == WriteBody(h.body) + WriteHunks(hunks[1..]);
      StepsConcat(opened', WriteBody(h.body), WriteHunks(hunks[1..]));
    }
  }

  lemma {:induction false} HeadersAreSkipped(s: State, headers: seq<string>)
    requires Idle(s) && forall h :: h in headers ==> PlainHeader(h)
    ensures Steps(s, headers) == s
    decreases |headers|
  {
    hide ReadHunk, PathOf;
    if headers != [] {
      assert headers[0] in headers && forall h :: h in headers[1..] ==> h in headers;
      assert Step(s, headers[0]) == s;
      HeadersAreSkipped(s, headers[1..]);
    }
  }

  /** The file a diff is about, when the gate watches it. */
  function WatchedFile(n: NewName): Option<string> {
    if n.Path? && IsChangedSource(n.path) then Some(n.path) else None
  }

  lemma PlusIsNoHunk(line: string)
    requires "+++ " <= line
    ensures ReadHunk(line).None? && !("diff --git " <= line)
  {
    assert line[0] == '+';
  }

  lemma NameStep(s: State, name: NewName)
    requires Idle(s) && s.inHeader && s.file == None && (name.Path? ==> '\t' !in name.path)
    ensures Steps(s, WriteName(name)) == s.(file := WatchedFile(name))
  {
    match name {
      case Path(path, tab) =>
        var line := "+++ b/" + path + (if tab then "\t" else "");
        var rest := if tab then "\t" else "";
        PlusIsNoHunk(line);
        assert line[4..] == ("b/" + path) + rest;
        UpToStops("b/" + path, '\t', rest);
        assert ("b/" + path)[2..] == path && ("b/" + path)[0] == 'b';
        assert PathOf(line) == WatchedFile(name);
        OneStep(s, line);
      case Deleted =>
        var line := "+++ /dev/null";
        PlusIsNoHunk(line);
        UpToStops("/dev/null", '\t', "");
        assert line[4..] == "/dev/null" + "";
        assert PathOf(line) == None;
        OneStep(s, line);
      case Unnamed =>
    }
  }

  lemma OneStep(s: State, line: string)
    ensures Steps(s, [line]) == Step(s, line)
  {
    hide Step;
    assert [line][1..] == [];
  }

  lemma FileIsRead(s: State, f: FileDiff)
    requires Idle(s) && ProperFile(f)
    ensures var r := Steps(s, WriteFile(f));
            Idle(r) && Marks(s.changed, r.changed, WatchedFile(f.name), AddedInHunks(f.hunks))
  {
    hide Marks, ReadHunk, WriteHunks, WriteName, IsChangedSource, AddedInHunks, Steps;
    var first := "diff --git " + f.command;
    var header := s.(inHeader := true, file := None);
    assert Step(s, first) == header;
    OneStep(s, first);
    HeadersAreSkipped(header, f.headers);
    NameStep(header, f.name);
    var named := header.(file := WatchedFile(f.name));
    HunksAreRead(named, f.hunks);
    StepsConcat(s, [first], f.headers);
    StepsConcat(s, [first] + f.headers, WriteName(f.name));
    StepsConcat(s, [first] + f.headers + WriteName(f.name), WriteHunks(f.hunks));
  }

  /** What a whole diff adds to `before`, path by path. */
  ghost predicate MarksAll(before: map<string, set<int>>, after: map<string, set<int>>, files: seq<FileDiff>) {
    forall path :: MarksPath(before, after, files, path)
  }

  predicate MarksPath(before: map<string, set<int>>, after: map<string, set<int>>, files: seq<FileDiff>, path: string) {
    var added := if IsChangedSource(path) then AddedTo(files, path) else {};
    LinesOf(after, path) == LinesOf(before, path) + added && (path in after <==> path in before || added != {})
  }

  lemma OnePath(before: map<string, set<int>>, middle: map<string, set<int>>, after: map<string, set<int>>, f: FileDiff,
                rest: seq<FileDiff>, path: string)
    requires Marks(before, middle, WatchedFile(f.name), AddedInHunks(f.hunks)) && MarksPath(middle, after, rest, path)
    ensures MarksPath(before, after, [f] + rest, path)
  {
    hide IsChangedSource, AddedInHunks;
    assert ([f] + rest)[1..] == rest;
    assert LinesOf(middle, path) == LinesOf(before, path) + (if WatchedFile(f.name) == Some(path) then AddedInHunks(f.hunks) else {});
    EitherEmpty(if WatchedFile(f.name) == Some(path) then AddedInHunks(f.hunks) else {}, if IsChangedSource(path) then AddedTo(rest, path) else {});
  }

  lemma {:induction false} FilesAreRead(s: State, files: seq<FileDiff>)
    requires Idle(s) && forall f :: f in files ==> ProperFile(f)
    ensures Idle(Steps(s, WriteDiff(files))) && MarksAll(s.changed, Steps(s, WriteDiff(files)).changed, files)
    decreases |files|
  {
    hide Marks, ProperFile, WriteFile, IsChangedSource, AddedInHunks, Step, WatchedFile;
    if files != [] {
      var f, rest := files[0], files[1..];
      assert f in files && forall x :: x in rest ==> x in files;
      FileIsRead(s, f);
      var middle := Steps(s, WriteFile(f));
      FilesAreRead(middle, rest);
      StepsConcat(s, WriteFile(f), WriteDiff(rest));
      var after := Steps(middle, WriteDiff(rest));
      forall path
        ensures MarksPath(s.changed, after.changed, files, path)
      {
        assert MarksPath(middle.changed, after.changed, rest, path);
        OnePath(s.changed, middle.changed, after.changed, f, rest, path);
        assert [f] + rest == files;
      }
    }
  }

  /** The reader inverts the writer: a path is in the result exactly when the gate watches it and the diff
      adds lines to it, and then with exactly the numbers of those lines. */
  lemma DiffIsRead(files: seq<FileDiff>, path: string)
    requires forall f :: f in files ==> ProperFile(f)
    ensures var changed := ParseUnifiedDiff(WriteDiff(files));
            && (path in changed <==> IsChangedSource(path) && AddedTo(files, path) != {})
            && (path in changed ==> changed[path] == AddedTo(files, path))
  {
    hide IsChangedSource, AddedTo, Steps, WriteDiff, ProperFile;
    FilesAreRead(START, files);
    assert MarksPath(map[], Steps(START, WriteDiff(files)).changed, files, path);
  }
}
