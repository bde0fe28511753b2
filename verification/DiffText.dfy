/**
 The text of a unified diff, which the gate splits into lines itself.

 The splitting breaks at more characters than the writer ends a line with, so one
 printed line may be read as several pieces. `InStepExactly` says for every hunk
 when that does no harm, `NothingReadsOn` what happens once it does, and
 `FormFeedMisleads` is a diff on which it happens.
 */
module DiffText {
  import opened Wrappers
  import opened Strings
  import opened DiffParser
  import opened Names

  // ------------------------------------------------------------------- the lines

  /** Where the source's line splitting breaks a text. */
  predicate IsLineBreak(c: char) {
    var n := c as int;
    0xa <= n <= 0xd || 0x1c <= n <= 0x1e || n == 0x85 || n == 0x2028 || n == 0x2029
  }

  function LineRun(s: string): (r: string)
    ensures r <= s && forall c :: c in r ==> !IsLineBreak(c)
    ensures |r| < |s| ==> IsLineBreak(s[|r|])
  {
    if s == "" || IsLineBreak(s[0]) then "" else [s[0]] + LineRun(s[1..])
  }

  /** A carriage return and a line feed break once. */
  function SplitLines(s: string): seq<string>
    decreases |s|
  {
    if s == "" then []
    else
      var line := LineRun(s);
      if |line| == |s| then [line]
      else if s[|line|] == '\r' && |line| + 1 < |s| && s[|line| + 1] == '\n' then [line] + SplitLines(s[|line| + 2..])
      else [line] + SplitLines(s[|line| + 1..])
  }

  function Join(lines: seq<string>): string {
    if lines == [] then "" else lines[0] + "\n" + Join(lines[1..])
  }

  predicate Unbroken(line: string) {
    forall c :: c in line ==> !IsLineBreak(c)
  }

  predicate NoBreaks(lines: seq<string>) {
    forall l :: l in lines ==> Unbroken(l)
  }

  lemma {:induction false} LineIsRun(line: string, rest: string)
    requires (forall c :: c in line ==> !IsLineBreak(c)) && rest != "" && IsLineBreak(rest[0])
    ensures LineRun(line + rest) == line
  {
    if line == "" {
      assert line + rest == rest;
    } else {
      assert (line + rest)[1..] == line[1..] + rest;
      LineIsRun(line[1..], rest);
    }
  }

  lemma {:induction false} LinesAreSplit(lines: seq<string>)
    requires NoBreaks(lines)
    ensures SplitLines(Join(lines)) == lines
  {
    if lines != [] {
      assert lines[0] in lines && forall l :: l in lines[1..] ==> l in lines;
      var rest := Join(lines[1..]);
      var s := lines[0] + "\n" + rest;
      LineIsRun(lines[0], "\n" + rest);
      assert s == lines[0] + ("\n" + rest) && s[|lines[0]|] == '\n' && s[|lines[0]| + 1..] == rest;
      LinesAreSplit(lines[1..]);
    }
  }

  // ------------------------------------------------------------------ the pieces

  /** What one printed line is read as. */
  function Pieces(line: string): (r: seq<string>)
    ensures r != []
  {
    SplitLines(line + "\n")
  }

  function PiecesOf(lines: seq<string>): seq<string> {
    if lines == [] then [] else Pieces(lines[0]) + PiecesOf(lines[1..])
  }

  /** How much of a text its first line break takes. */
  function BreakSize(s: string): nat
    requires s != ""
  {
    if s[0] == '\r' && 1 < |s| && s[1] == '\n' then 2 else 1
  }

  lemma BehindRun(run: string, tail: string, k: nat)
    requires k <= |tail|
    ensures (run + tail)[|run| + k..] == tail[k..]
    ensures k < |tail| ==> (run + tail)[|run| + k] == tail[k]
  {}

  lemma SplitStep(run: string, tail: string)
    requires (forall c :: c in run ==> !IsLineBreak(c)) && tail != "" && IsLineBreak(tail[0])
    ensures BreakSize(tail) <= |tail|
    ensures SplitLines(run + tail) == [run] + SplitLines(tail[BreakSize(tail)..])
  {
    hide IsLineBreak, LineRun;
    LineIsRun(run, tail);
    BehindRun(run, tail, 0);
    BehindRun(run, tail, 1);
    if BreakSize(tail) == 2 {
      BehindRun(run, tail, 2);
    }
  }

  lemma BreakIsWithin(tail: string, rest: string)
    requires tail != "" && tail[|tail| - 1] == '\n'
    ensures BreakSize(tail) <= |tail| && BreakSize(tail + rest) == BreakSize(tail)
    ensures (tail + rest)[BreakSize(tail)..] == tail[BreakSize(tail)..] + rest
    ensures BreakSize(tail) < |tail| ==> tail[BreakSize(tail)..][|tail| - BreakSize(tail) - 1] == '\n'
  {}

  lemma Regroup(run: string, a: seq<string>, b: seq<string>)
    ensures [run] + (a + b) == ([run] + a) + b
  {}

  /** A text that ends a line is split apart from what follows it. */
  lemma {:induction false} SplitApart(s: string, rest: string)
    requires s != "" && s[|s| - 1] == '\n'
    ensures SplitLines(s + rest) == SplitLines(s) + SplitLines(rest)
    decreases |s|
  {
    hide SplitLines, IsLineBreak, BreakSize;
    var run := LineRun(s);
    RunEnds(s);
    LastIsKept(s, run);
    var tail := s[|run|..];
    SplitStep(run, tail);
    assert s + rest == run + (tail + rest);
    BreakIsWithin(tail, rest);
    SplitStep(run, tail + rest);
    var left := tail[BreakSize(tail)..];
    if left == "" {
      assert left + rest == rest;
      NothingSplits();
    } else {
      SplitApart(left, rest);
    }
    Regroup(run, SplitLines(left), SplitLines(rest));
  }

  lemma RunEnds(s: string)
    requires s != "" && s[|s| - 1] == '\n'
    ensures LineRun(s) != s
  {
    assert IsLineBreak(s[|s| - 1]) && s[|s| - 1] in s;
  }

  lemma LastIsKept(s: string, run: string)
    requires run <= s && run != s
    ensures s == run + s[|run|..] && s[|run|..] != "" && s[|run|..][|s| - |run| - 1] == s[|s| - 1]
  {}

  lemma NothingSplits()
    ensures SplitLines("") == []
  {}

  lemma {:induction false} TextSplits(lines: seq<string>)
    ensures SplitLines(Join(lines)) == PiecesOf(lines)
  {
    hide SplitLines;
    if lines == [] {
      NothingSplits();
    } else {
      SplitApart(lines[0] + "\n", Join(lines[1..]));
      TextSplits(lines[1..]);
    }
  }

  lemma {:induction false} PiecesConcat(a: seq<string>, b: seq<string>)
    ensures PiecesOf(a + b) == PiecesOf(a) + PiecesOf(b)
  {
    hide Pieces;
    if a == [] {
      assert a + b == b;
    } else {
      assert (a + b)[1..] == a[1..] + b;
      PiecesConcat(a[1..], b);
    }
  }

  /** The first piece of a line begins as the line does; its other pieces do not depend on that beginning. */
  lemma BeginningStays(beginning: string, line: string)
    requires forall c :: c in beginning ==> !IsLineBreak(c)
    ensures Pieces(line) != []
    ensures Pieces(beginning + line) == [beginning + Pieces(line)[0]] + Pieces(line)[1..]
  {
    hide SplitLines, LineRun, IsLineBreak, BreakSize;
    var text := line + "\n";
    RunEnds(text);
    var run := LineRun(text);
    LastIsKept(text, run);
    var tail := text[|run|..];
    SplitStep(run, tail);
    SplitStep(beginning + run, tail);
    assert beginning + line + "\n" == beginning + run + tail;
  }

  // ------------------------------------------------------- what the pieces count as

  /** Lines of the old file the reader takes the lines of a body for. */
  function OldsOf(lines: seq<string>): nat {
    if lines == [] then 0
    else (if "\\" <= lines[0] || "+" <= lines[0] then 0 else 1) + OldsOf(lines[1..])
  }

  /** Lines of the new file, in order: which of them are added ones. */
  function NewsOf(lines: seq<string>): seq<bool> {
    if lines == [] then []
    else (if "\\" <= lines[0] || "-" <= lines[0] then [] else ["+" <= lines[0]]) + NewsOf(lines[1..])
  }

  /** Between hunks the reader passes over the line. */
  predicate Inert(line: string) {
    !("diff --git " <= line) && ReadHunk(line).None?
  }

  /** The lines are those of a body with so many old lines and these new ones, and then lines to pass over. */
  predicate SettlesAt(lines: seq<string>, olds: int, news: seq<bool>, end: nat) {
    && end <= |lines|
    && OldsOf(lines[..end]) == olds && NewsOf(lines[..end]) == news
    && forall l :: l in lines[end..] ==> Inert(l)
  }

  ghost predicate Settles(lines: seq<string>, olds: int, news: seq<bool>) {
    exists end: nat :: SettlesAt(lines, olds, news, end)
  }

  /** The numbers, from `line` on, of the added ones among new lines. */
  function AddedAt(news: seq<bool>, line: int): set<int> {
    if news == [] then {} else (if news[0] then {line} else {}) + AddedAt(news[1..], line + 1)
  }

  function MarkAll(changed: map<string, set<int>>, file: Option<string>, lines: set<int>): map<string, set<int>> {
    if file.None? || lines == {} then changed else changed[file.value := LinesOf(changed, file.value) + lines]
  }

  /** What reading a body with these new lines comes to, once its counts are used up. */
  function Settled(s: State, news: seq<bool>): State {
    s.(before := 0, now := 0, line := s.line + |news|, changed := MarkAll(s.changed, s.file, AddedAt(news, s.line)))
  }

  lemma MarkMore(changed: map<string, set<int>>, file: Option<string>, line: int, lines: set<int>)
    ensures MarkAll(if file.Some? then Mark(changed, file.value, line) else changed, file, lines)
         == MarkAll(changed, file, {line} + lines)
  {
    assert line in {line} + lines;
    if file.Some? {
      assert LinesOf(Mark(changed, file.value, line), file.value) + lines == LinesOf(changed, file.value) + ({line} + lines);
      assert lines == {} ==> {line} + lines == {line};
    }
  }

  lemma NothingMarkedIn(changed: map<string, set<int>>, lines: set<int>)
    ensures MarkAll(changed, None, lines) == changed
  {}

  lemma FirstOf(lines: seq<string>, end: nat)
    requires 0 < end <= |lines|
    ensures lines[..end][0] == lines[0] && lines[..end][1..] == lines[1..][..end - 1] && lines[end..] == lines[1..][end - 1..]
  {}

  lemma {:induction false} InertAreSkipped(s: State, lines: seq<string>)
    requires Idle(s) && !s.inHeader && forall l :: l in lines ==> Inert(l)
    ensures Steps(s, lines) == s
    decreases |lines|
  {
    hide ReadHunk, PathOf;
    if lines != [] {
      assert lines[0] in lines && forall l :: l in lines[1..] ==> l in lines;
      InertAreSkipped(s, lines[1..]);
    }
  }

  lemma SettledAtOnce(s: State)
    ensures Idle(s) ==> Settled(s, []) == s
  {}

  lemma NotSettled(s: State, news: seq<bool>)
    ensures Settled(s, news) == s ==> Idle(s)
  {}

  lemma CountedLine(s: State, lines: seq<string>, news: seq<bool>, end: nat)
    requires 0 < end && SettlesAt(lines, s.before, news, end) && s.now == |news|
    ensures var l := lines[0]; var next := Step(s, l);
            var rest := if "\\" <= l || "-" <= l then news else news[1..];
            && SettlesAt(lines[1..], next.before, rest, end - 1) && next.now == |rest|
            && next.file == s.file && next.inHeader == s.inHeader
            && Settled(next, rest) == Settled(s, news)
  {
    hide ReadHunk, PathOf, Mark, MarkAll, Inert;
    FirstOf(lines, end);
    var l := lines[0];
    assert NewsOf(lines[..end]) == (if "\\" <= l || "-" <= l then [] else ["+" <= l]) + NewsOf(lines[..end][1..]);
    if "\\" <= l {
      assert l == "\\" + l[1..];
      MarkerIsNothing(s, l[1..]);
    } else if "+" <= l {
      assert l[0] == '+' && news[0];
      MarkMore(s.changed, s.file, s.line, AddedAt(news[1..], s.line + 1));
      NothingMarkedIn(s.changed, AddedAt(news, s.line));
    } else if "-" <= l {
      assert l[0] == '-';
    } else {
      assert !news[0] && AddedAt(news, s.line) == AddedAt(news[1..], s.line + 1);
    }
  }

  /** Lines that settle are read as the body whose counts and kinds they have. */
  lemma {:induction false} SettledIsRead(s: State, lines: seq<string>, news: seq<bool>, end: nat)
    requires !s.inHeader && SettlesAt(lines, s.before, news, end) && s.now == |news|
    ensures Steps(s, lines) == Settled(s, news)
    decreases |lines|
  {
    hide Step, Settled, Inert;
    if end == 0 {
      assert lines[..end] == [] && lines[end..] == lines;
      SettledAtOnce(s);
      InertAreSkipped(s, lines);
    } else {
      CountedLine(s, lines, news, end);
      var l := lines[0];
      SettledIsRead(Step(s, l), lines[1..], if "\\" <= l || "-" <= l then news else news[1..], end - 1);
    }
  }

  // ----------------------------------------------------------------- nothing else is

  /** Where one piece that is no header could send the line counter is at most here. */
  predicate HeadersBelow(lines: seq<string>, bound: int) {
    forall l :: l in lines ==> var h := ReadHunk(l); h.Some? ==> h.value.start <= bound
  }

  /** Once a piece is taken for a header, a file's or a hunk's, the reader does not come back to the line it was at. */
  lemma {:induction false} StaysAway(s: State, lines: seq<string>, bound: int)
    requires HeadersBelow(lines, bound) && (s.inHeader || s.line <= bound)
    ensures var r := Steps(s, lines); r.inHeader || r.line <= bound + |lines|
    decreases |lines|
  {
    hide ReadHunk, PathOf, Mark;
    if lines != [] {
      assert lines[0] in lines && forall l :: l in lines[1..] ==> l in lines;
      StaysAway(Step(s, lines[0]), lines[1..], bound + 1);
    }
  }

  /** A marked line stays marked. */
  lemma {:induction false} MarksStay(s: State, lines: seq<string>, file: string, x: int)
    requires x in LinesOf(s.changed, file)
    ensures x in LinesOf(Steps(s, lines).changed, file)
    decreases |lines|
  {
    hide ReadHunk, PathOf;
    if lines != [] {
      MarksStay(Step(s, lines[0]), lines[1..], file, x);
    }
  }

  /** A line the counter has passed is not marked any more. */
  lemma {:induction false} PassedStays(s: State, lines: seq<string>, bound: int, file: string, x: int)
    requires HeadersBelow(lines, bound) && x < s.line && x !in LinesOf(s.changed, file)
    ensures var r := Steps(s, lines); r.inHeader || r.line <= bound + |lines| || x !in LinesOf(r.changed, file)
    decreases |lines|
  {
    hide ReadHunk, PathOf;
    if lines != [] {
      var next := Step(s, lines[0]);
      assert lines[0] in lines && forall l :: l in lines[1..] ==> l in lines;
      if x < next.line && !next.inHeader && next.line > bound {
        PassedStays(next, lines[1..], bound, file, x);
      } else {
        StaysAway(next, lines[1..], bound + 1);
      }
    }
  }

  /** The same file, and no other path has gained a line. */
  ghost predicate Spares(s: State, r: State) {
    r.file == s.file && forall path :: s.file != Some(path) ==> (path in r.changed <==> path in s.changed) && LinesOf(r.changed, path) == LinesOf(s.changed, path)
  }

  /** A counter below zero never comes to zero again: to the end of the diff the reader takes every line for
      a line of that hunk, and no path but that hunk's file is marked. */
  lemma {:induction false} NothingReadsOn(s: State, lines: seq<string>)
    requires s.before < 0 || s.now < 0
    ensures var r := Steps(s, lines);
            (r.before < 0 || r.now < 0) && r.inHeader == s.inHeader && Spares(s, r)
    decreases |lines|
  {
    hide ReadHunk, PathOf;
    if lines != [] {
      NothingReadsOn(Step(s, lines[0]), lines[1..]);
    }
  }

  lemma {:induction false} OnlyInert(s: State, lines: seq<string>, bound: int)
    requires Idle(s) && !s.inHeader && HeadersBelow(lines, bound) && bound + |lines| < s.line
    requires Steps(s, lines) == s
    ensures forall l :: l in lines ==> Inert(l)
    decreases |lines|
  {
    hide ReadHunk, PathOf;
    if lines != [] {
      assert lines[0] in lines && forall l :: l in lines[1..] ==> l in lines;
      var next := Step(s, lines[0]);
      if !Inert(lines[0]) {
        StaysAway(next, lines[1..], bound);
        assert false;
      }
      OnlyInert(s, lines[1..], bound);
    }
  }

  lemma {:induction false} AddedFollow(news: seq<bool>, line: int)
    ensures forall x :: x in AddedAt(news, line) ==> line <= x
    ensures line in AddedAt(news, line) <==> news != [] && news[0]
  {
    if news != [] {
      AddedFollow(news[1..], line + 1);
    }
  }

  /** The reader is in a hunk of a file, past every line it has marked there. */
  predicate Reading(s: State, news: seq<bool>) {
    && s.file.Some? && !s.inHeader && s.before >= 0 && s.now == |news|
    && forall x :: x in LinesOf(s.changed, s.file.value) ==> x < s.line
  }

  /** A first line the counts of a body have no room for, or of another kind than the body's next line. */
  lemma FirstIsRight(s: State, lines: seq<string>, news: seq<bool>, bound: int)
    requires Reading(s, news) && !Idle(s) && HeadersBelow(lines, bound) && bound + |lines| < s.line
    requires lines != [] && Steps(s, lines) == Settled(s, news)
    ensures var l := lines[0];
            || "\\" <= l
            || ("+" <= l && news != [] && news[0])
            || ("-" <= l && s.before > 0)
            || (!("+" <= l) && !("-" <= l) && s.before > 0 && news != [] && !news[0])
  {
    hide ReadHunk, PathOf;
    var l, rest := lines[0], lines[1..];
    var next, file := Step(s, l), s.file.value;
    assert forall x :: x in rest ==> x in lines;
    AddedFollow(news, s.line);
    if next.before < 0 || next.now < 0 {
      NothingReadsOn(next, rest);
    } else if "\\" <= l {
    } else if "+" <= l {
      MarksStay(next, rest, file, s.line);
    } else if !("-" <= l) && news[0] {
      PassedStays(next, rest, bound, file, s.line);
    }
  }

  lemma SettledOn(s: State, l: string, news: seq<bool>)
    requires Reading(s, news) && !Idle(s)
    requires "\\" <= l || "-" <= l || (news != [] && news[0] == ("+" <= l))
    ensures var rest := if "\\" <= l || "-" <= l then news else news[1..];
            Settled(Step(s, l), rest) == Settled(s, news) && Step(s, l).now == |rest|
  {
    hide ReadHunk, PathOf, Mark, MarkAll;
    if "\\" <= l {
    } else if "+" <= l {
      MarkMore(s.changed, s.file, s.line, AddedAt(news[1..], s.line + 1));
    } else if "-" <= l {
      assert l[0] == '-';
    } else {
      assert AddedAt(news, s.line) == AddedAt(news[1..], s.line + 1);
    }
  }

  lemma ReadingOn(s: State, l: string, news: seq<bool>)
    requires Reading(s, news) && !Idle(s)
    requires || "\\" <= l
             || ("+" <= l && news != [] && news[0])
             || ("-" <= l && s.before > 0)
             || (!("+" <= l) && !("-" <= l) && s.before > 0 && news != [] && !news[0])
    ensures Reading(Step(s, l), if "\\" <= l || "-" <= l then news else news[1..])
  {
    hide ReadHunk, PathOf;
    var next, file := Step(s, l), s.file.value;
    if "\\" <= l {
      assert next == s;
    } else if "+" <= l {
      assert l[0] == '+' && LinesOf(next.changed, file) == LinesOf(s.changed, file) + {s.line};
    } else if "-" <= l {
      assert next.changed == s.changed && next.line == s.line;
    } else {
      assert next.changed == s.changed && next.line == s.line + 1;
    }
  }

  /** Lines that are read as a body with its counts used up settle. */
  lemma {:induction false} OnlySettled(s: State, lines: seq<string>, news: seq<bool>, bound: int) returns (end: nat)
    requires Reading(s, news) && HeadersBelow(lines, bound) && bound + |lines| < s.line
    requires Steps(s, lines) == Settled(s, news)
    ensures SettlesAt(lines, s.before, news, end)
    decreases |lines|
  {
    hide ReadHunk, PathOf, Settled, Inert;
    if Idle(s) {
      end := 0;
      SettledAtOnce(s);
      OnlyInert(s, lines, bound);
      assert lines[..0] == [] && lines[0..] == lines;
    } else {
      NotSettled(s, news);
      FirstIsRight(s, lines, news, bound);
      var l := lines[0];
      SettledOn(s, l, news);
      ReadingOn(s, l, news);
      var rest := if "\\" <= l || "-" <= l then news else news[1..];
      assert forall x :: x in lines[1..] ==> x in lines;
      var k := OnlySettled(Step(s, l), lines[1..], rest, bound);
      end := k + 1;
      FirstOf(lines, end);
    }
  }

  // --------------------------------------------------------------------- one hunk

  function HunkLines(h: Hunk): seq<string> {
    [WriteHunkHeader(h)] + WriteBody(h.body)
  }

  /** What the reader gets between the header it recognises and the next printed line that is none of the hunk's. */
  function HunkPieces(h: Hunk): seq<string> {
    Pieces(h.section)[1..] + PiecesOf(WriteBody(h.body))
  }

  /** Reading the hunk's text does what reading its lines does. */
  predicate ReadsAsPrinted(s: State, h: Hunk) {
    Steps(s, SplitLines(Join(HunkLines(h)))) == Steps(s, HunkLines(h))
  }

  function MovedTo(h: Hunk, start: nat): Hunk {
    h.(now := h.now.(start := start))
  }

  /** The same, whatever was read before and wherever in the new file the hunk stands. */
  ghost predicate InStep(h: Hunk) {
    forall s: State, start: nat :: Idle(s) ==> ReadsAsPrinted(s, MovedTo(h, start))
  }

  lemma {:induction false} BodyCounts(body: seq<Line>)
    ensures OldsOf(WriteBody(body)) == Olds(body) && |NewsOf(WriteBody(body))| == News(body)
  {
    if body != [] {
      BodyCounts(body[1..]);
      var l, lines := WriteLine(body[0]), WriteBody(body);
      assert lines[0] == l && lines[1..] == WriteBody(body[1..]);
      assert l[0] == (match body[0] case Added(_) => '+' case Removed(_) => '-' case Context(_) => ' ' case Marker(_) => '\\');
    }
  }

  lemma NumbersDoNotBreak(r: Range)
    ensures forall c :: c in WriteRange(r) ==> !IsLineBreak(c)
  {
    DecimalDigits(r.start);
    DecimalDigits(r.count);
  }

  function Beginning(h: Hunk): string {
    "@@ -" + WriteRange(h.before) + " +" + WriteRange(h.now) + " @@"
  }

  lemma BeginningHolds(h: Hunk)
    ensures forall c :: c in Beginning(h) ==> !IsLineBreak(c)
  {
    hide WriteRange;
    NumbersDoNotBreak(h.before);
    NumbersDoNotBreak(h.now);
  }

  /** The header's own piece is read as the header, and the pieces after it do not depend on where the hunk stands. */
  lemma HunkSplits(h: Hunk)
    requires ProperHunk(h)
    ensures var cut := h.(section := Pieces(h.section)[0]);
            SplitLines(Join(HunkLines(h))) == [WriteHunkHeader(cut)] + HunkPieces(h) && ProperHunk(cut)
  {
    hide SplitLines, WriteRange, IsLineBreak, Olds, News;
    var first := WriteHunkHeader(h);
    assert first == Beginning(h) + h.section;
    BeginningHolds(h);
    BeginningStays(Beginning(h), h.section);
    TextSplits(HunkLines(h));
    assert HunkLines(h)[1..] == WriteBody(h.body);
  }

  /** Where the reader is after a hunk's header. */
  function Opened(s: State, h: Hunk): State {
    s.(inHeader := false, before := h.before.count, line := h.now.start, now := h.now.count)
  }

  lemma TwoReadings(s: State, h: Hunk)
    requires Idle(s) && ProperHunk(h)
    ensures Steps(s, SplitLines(Join(HunkLines(h)))) == Steps(Opened(s, h), HunkPieces(h))
    ensures Steps(s, HunkLines(h)) == Settled(Opened(s, h), NewsOf(WriteBody(h.body)))
  {
    hide Step, SplitLines, WriteHunkHeader, Settled, HunkPieces, NewsOf, OldsOf, Olds, News, WriteBody;
    HunkSplits(h);
    var cut := h.(section := Pieces(h.section)[0]);
    HunkStep(s, h);
    HunkStep(s, cut);
    assert ([WriteHunkHeader(cut)] + HunkPieces(h))[1..] == HunkPieces(h);
    var lines := WriteBody(h.body);
    assert HunkLines(h)[1..] == lines;
    BodyCounts(h.body);
    assert lines[..|lines|] == lines && lines[|lines|..] == [];
    SettledIsRead(Opened(s, h), lines, NewsOf(lines), |lines|);
  }

  lemma MovingKeeps(h: Hunk, start: nat)
    ensures ProperHunk(h) ==> ProperHunk(MovedTo(h, start))
    ensures HunkPieces(MovedTo(h, start)) == HunkPieces(h) && MovedTo(h, start).body == h.body
  {}

  /** A hunk's text does what its lines do exactly when its pieces settle into a body with as many old lines
      and new lines of the same kinds. */
  lemma InStepExactly(h: Hunk)
    requires ProperHunk(h)
    ensures InStep(h) <==> Settles(HunkPieces(h), Olds(h.body), NewsOf(WriteBody(h.body)))
  {
    hide Steps, SplitLines, Join, HunkLines, HunkPieces, ProperHunk, SettlesAt, Settled, Olds, News, NewsOf, WriteBody;
    if Settles(HunkPieces(h), Olds(h.body), NewsOf(WriteBody(h.body))) {
      forall s: State, start: nat | Idle(s)
        ensures ReadsAsPrinted(s, MovedTo(h, start))
      {
        MovingKeeps(h, start);
        SettlingIsEnough(s, MovedTo(h, start));
      }
    }
    if InStep(h) {
      SettlingIsNeeded(h);
    }
  }

  lemma SettlingIsEnough(s: State, h: Hunk)
    requires Idle(s) && ProperHunk(h) && Settles(HunkPieces(h), Olds(h.body), NewsOf(WriteBody(h.body)))
    ensures ReadsAsPrinted(s, h)
  {
    hide Steps, SplitLines, Join, HunkLines, HunkPieces, SettlesAt, Settled, Olds, News, NewsOf, WriteBody;
    TwoReadings(s, h);
    BodyCounts(h.body);
    var news := NewsOf(WriteBody(h.body));
    var end: nat :| SettlesAt(HunkPieces(h), Olds(h.body), news, end);
    SettledIsRead(Opened(s, h), HunkPieces(h), news, end);
  }

  lemma {:induction false} SomeBound(lines: seq<string>) returns (bound: nat)
    ensures HeadersBelow(lines, bound)
  {
    hide ReadHunk;
    if lines == [] {
      bound := 0;
    } else {
      var rest := SomeBound(lines[1..]);
      var h := ReadHunk(lines[0]);
      bound := if h.Some? && h.value.start > rest then h.value.start else rest;
      forall l | l in lines
        ensures ReadHunk(l).Some? ==> ReadHunk(l).value.start <= bound
      {
        assert l == lines[0] || l in lines[1..];
      }
    }
  }

  lemma SettlingIsNeeded(h: Hunk)
    requires ProperHunk(h) && InStep(h)
    ensures Settles(HunkPieces(h), Olds(h.body), NewsOf(WriteBody(h.body)))
  {
    hide Steps, SplitLines, Join, HunkLines, HunkPieces, SettlesAt, Settled, Olds, News, NewsOf, WriteBody, ReadHunk, HeadersBelow;
    var pieces, news := HunkPieces(h), NewsOf(WriteBody(h.body));
    var bound := SomeBound(pieces);
    var start: nat := bound + |pieces| + 1;
    var moved := MovedTo(h, start);
    MovingKeeps(h, start);
    var s := START.(file := Some(""));
    assert Idle(s);
    assert ReadsAsPrinted(s, MovedTo(h, start));
    TwoReadings(s, moved);
    BodyCounts(h.body);
    var end := OnlySettled(Opened(s, moved), pieces, news, bound);
  }

  // -------------------------------------------------------------------- whole diffs

  /** What comes before a file's hunks: only its header lines may break, and then into header lines. */
  predicate HeadHolds(f: FileDiff) {
    && NoBreaks(["diff --git " + f.command]) && NoBreaks(WriteName(f.name))
    && forall p :: p in PiecesOf(f.headers) ==> PlainHeader(p)
  }

  ghost predicate TextHolds(f: FileDiff) {
    HeadHolds(f) && forall h :: h in f.hunks ==> Settles(HunkPieces(h), Olds(h.body), NewsOf(WriteBody(h.body)))
  }

  lemma {:induction false} UnbrokenPieces(lines: seq<string>)
    requires NoBreaks(lines)
    ensures PiecesOf(lines) == lines
  {
    LinesAreSplit(lines);
    TextSplits(lines);
  }

  lemma {:induction false} HunksInStep(s: State, hunks: seq<Hunk>)
    requires Idle(s) && forall h :: h in hunks ==> ProperHunk(h) && Settles(HunkPieces(h), Olds(h.body), NewsOf(WriteBody(h.body)))
    ensures Steps(s, PiecesOf(WriteHunks(hunks))) == Steps(s, WriteHunks(hunks)) && Idle(Steps(s, WriteHunks(hunks)))
    decreases |hunks|
  {
    hide Step, SplitLines, Join, Settles, ProperHunk, WriteHunkHeader, WriteBody, HunkPieces;
    if hunks != [] {
      var h, rest := hunks[0], hunks[1..];
      assert h in hunks && forall x :: x in rest ==> x in hunks;
      SettlingIsEnough(s, h);
      TwoReadings(s, h);
      TextSplits(HunkLines(h));
      var middle := Steps(s, HunkLines(h));
      HunksInStep(middle, rest);
      assert WriteHunks(hunks) == HunkLines(h) + WriteHunks(rest);
      PiecesConcat(HunkLines(h), WriteHunks(rest));
      StepsConcat(s, HunkLines(h), WriteHunks(rest));
      StepsConcat(s, PiecesOf(HunkLines(h)), PiecesOf(WriteHunks(rest)));
    }
  }

  lemma HeadInStep(s: State, f: FileDiff)
    requires Idle(s) && ProperFile(f) && HeadHolds(f)
    ensures var head := ["diff --git " + f.command] + f.headers + WriteName(f.name);
            Steps(s, PiecesOf(head)) == Steps(s, head) == s.(inHeader := true, file := WatchedFile(f.name))
  {
    hide SplitLines, ReadHunk, WriteName, Steps, NoBreaks, PlainHeader, Pieces;
    var first := ["diff --git " + f.command];
    var header := s.(inHeader := true, file := None);
    OneStep(s, first[0]);
    assert Steps(s, first) == header;
    HeadersAreSkipped(header, f.headers);
    HeadersAreSkipped(header, PiecesOf(f.headers));
    UnbrokenPieces(first);
    UnbrokenPieces(WriteName(f.name));
    NameStep(header, f.name);
    PiecesConcat(first, f.headers);
    PiecesConcat(first + f.headers, WriteName(f.name));
    StepsConcat(s, first, f.headers);
    StepsConcat(s, first + f.headers, WriteName(f.name));
    StepsConcat(s, first, PiecesOf(f.headers));
    StepsConcat(s, first + PiecesOf(f.headers), WriteName(f.name));
  }

  lemma FileInStep(s: State, f: FileDiff)
    requires Idle(s) && ProperFile(f) && TextHolds(f)
    ensures Steps(s, PiecesOf(WriteFile(f))) == Steps(s, WriteFile(f)) && Idle(Steps(s, WriteFile(f)))
  {
    hide SplitLines, ReadHunk, WriteName, WriteHunks, Steps, HeadHolds, Settles, ProperHunk, Pieces, PiecesOf, PlainHeader;
    var head := ["diff --git " + f.command] + f.headers + WriteName(f.name);
    HeadInStep(s, f);
    var middle := Steps(s, head);
    HunksInStep(middle, f.hunks);
    PiecesConcat(head, WriteHunks(f.hunks));
    StepsConcat(s, head, WriteHunks(f.hunks));
    StepsConcat(s, PiecesOf(head), PiecesOf(WriteHunks(f.hunks)));
  }

  lemma {:induction false} DiffInStep(s: State, files: seq<FileDiff>)
    requires Idle(s) && forall f :: f in files ==> ProperFile(f) && TextHolds(f)
    ensures Steps(s, PiecesOf(WriteDiff(files))) == Steps(s, WriteDiff(files))
    decreases |files|
  {
    hide Step, Pieces, ProperFile, TextHolds, WriteFile;
    if files != [] {
      var f, rest := files[0], files[1..];
      assert f in files && forall x :: x in rest ==> x in files;
      FileInStep(s, f);
      DiffInStep(Steps(s, WriteFile(f)), rest);
      PiecesConcat(WriteFile(f), WriteDiff(rest));
      StepsConcat(s, WriteFile(f), WriteDiff(rest));
      StepsConcat(s, PiecesOf(WriteFile(f)), PiecesOf(WriteDiff(rest)));
    }
  }

  /** The text of a diff is read as its lines are, when no hunk's text falls out of step. */
  lemma TextIsRead(files: seq<FileDiff>, path: string)
    requires forall f :: f in files ==> ProperFile(f) && TextHolds(f)
    ensures var changed := ParseUnifiedDiff(SplitLines(Join(WriteDiff(files))));
            && (path in changed <==> IsChangedSource(path) && AddedTo(files, path) != {})
            && (path in changed ==> changed[path] == AddedTo(files, path))
  {
    hide IsChangedSource, AddedTo, Steps, WriteDiff, ProperFile, TextHolds, SplitLines, Join, PiecesOf;
    TextSplits(WriteDiff(files));
    DiffInStep(START, files);
    DiffIsRead(files, path);
  }

  lemma {:induction false} HunkIsPrinted(hunks: seq<Hunk>, h: Hunk)
    requires h in hunks
    ensures forall l :: l in HunkLines(h) ==> l in WriteHunks(hunks)
  {
    if h != hunks[0] {
      HunkIsPrinted(hunks[1..], h);
    }
  }

  /** Lines without breaks hold. */
  lemma UnbrokenHolds(f: FileDiff)
    requires ProperFile(f) && NoBreaks(WriteFile(f))
    ensures TextHolds(f)
  {
    hide IsLineBreak, SplitLines, ProperHunk, PlainHeader;
    var head := ["diff --git " + f.command] + f.headers + WriteName(f.name);
    assert forall l :: l in head || l in WriteHunks(f.hunks) ==> l in WriteFile(f);
    assert forall l :: l in f.headers || l in WriteName(f.name) || l == "diff --git " + f.command ==> l in head;
    assert NoBreaks(f.headers) && NoBreaks(WriteName(f.name));
    UnbrokenPieces(f.headers);
    forall h | h in f.hunks
      ensures Settles(HunkPieces(h), Olds(h.body), NewsOf(WriteBody(h.body)))
    {
      HunkIsPrinted(f.hunks, h);
      UnbrokenHunk(h);
    }
  }

  lemma UnbrokenHunk(h: Hunk)
    requires NoBreaks(HunkLines(h))
    ensures Settles(HunkPieces(h), Olds(h.body), NewsOf(WriteBody(h.body)))
  {
    hide IsLineBreak, SplitLines;
    var lines := WriteBody(h.body);
    assert forall l :: l in lines ==> l in HunkLines(h);
    UnbrokenPieces(lines);
    assert HunkLines(h)[0] == Beginning(h) + h.section;
    assert NoBreaks([h.section]) by { assert HunkLines(h)[0] in HunkLines(h); }
    UnbrokenPieces([h.section]);
    assert PiecesOf([h.section]) == Pieces(h.section) + [];
    assert HunkPieces(h) == lines && lines[..|lines|] == lines && lines[|lines|..] == [];
    BodyCounts(h.body);
    assert SettlesAt(lines, Olds(h.body), NewsOf(lines), |lines|);
  }

  // ------------------------------------------------------------- falling out of step

  /** A beginning of the lines uses the counts up exactly. */
  predicate MeetsAt(lines: seq<string>, olds: int, news: int, end: nat) {
    end <= |lines| && OldsOf(lines[..end]) == olds && |NewsOf(lines[..end])| == news
  }

  lemma {:induction false} CountsMissed(s: State, lines: seq<string>)
    requires s.before >= 0 && s.now >= 0 && OldsOf(lines) >= s.before && |NewsOf(lines)| >= s.now
    requires forall end: nat :: end <= |lines| ==> !MeetsAt(lines, s.before, s.now, end)
    ensures var r := Steps(s, lines); r.before < 0 || r.now < 0
    decreases |lines|
  {
    hide ReadHunk, PathOf, Mark;
    assert !MeetsAt(lines, s.before, s.now, 0) && lines[..0] == [];
    assert !MeetsAt(lines, s.before, s.now, |lines|) && lines[..|lines|] == lines;
    var l, next := lines[0], Step(s, lines[0]);
    assert l != "" ==> (("\\" <= l) == (l[0] == '\\')) && (("+" <= l) == (l[0] == '+')) && (("-" <= l) == (l[0] == '-'));
    if next.before < 0 || next.now < 0 {
      NothingReadsOn(next, lines[1..]);
    } else {
      forall end: nat | end <= |lines[1..]|
        ensures !MeetsAt(lines[1..], next.before, next.now, end)
      {
        assert !MeetsAt(lines, s.before, s.now, end + 1);
        FirstOf(lines, end + 1);
      }
      CountsMissed(next, lines[1..]);
    }
  }

  lemma {:induction false} CountsConcat(a: seq<string>, b: seq<string>)
    ensures OldsOf(a + b) == OldsOf(a) + OldsOf(b) && NewsOf(a + b) == NewsOf(a) + NewsOf(b)
  {
    if a == [] {
      assert a + b == b;
    } else {
      assert (a + b)[1..] == a[1..] + b;
      CountsConcat(a[1..], b);
    }
  }

  lemma LineCounts(l: Line)
    ensures OldsOf(Pieces(WriteLine(l))) >= (if l.Removed? || l.Context? then 1 else 0)
    ensures |NewsOf(Pieces(WriteLine(l)))| >= (if l.Added? || l.Context? then 1 else 0)
  {
    hide Pieces;
    var sign: string := match l case Added(_) => "+" case Removed(_) => "-" case Context(_) => " " case Marker(_) => "\\";
    assert WriteLine(l) == sign + l.text;
    BeginningStays(sign, l.text);
    var first := sign + Pieces(l.text)[0];
    assert first[0] == sign[0];
    assert ([first] + Pieces(l.text)[1..])[0] == first;
  }

  /** Every line begins a piece, so the pieces count at least what the lines do. */
  lemma {:induction false} PiecesCount(body: seq<Line>)
    ensures OldsOf(PiecesOf(WriteBody(body))) >= Olds(body) && |NewsOf(PiecesOf(WriteBody(body)))| >= News(body)
  {
    hide Pieces, OldsOf, NewsOf, WriteLine;
    if body == [] {
    } else {
      LineCounts(body[0]);
      PiecesCount(body[1..]);
      assert WriteBody(body)[1..] == WriteBody(body[1..]);
      CountsConcat(Pieces(WriteLine(body[0])), PiecesOf(WriteBody(body[1..])));
    }
  }

  /** A hunk whose pieces never use its counts up exactly leaves a counter below zero. */
  lemma MissedHunk(s: State, h: Hunk)
    requires Idle(s) && ProperHunk(h)
    requires forall end: nat :: end <= |HunkPieces(h)| ==> !MeetsAt(HunkPieces(h), Olds(h.body), News(h.body), end)
    ensures var r := Steps(s, SplitLines(Join(HunkLines(h)))); (r.before < 0 || r.now < 0) && Spares(s, r)
  {
    hide Steps, SplitLines, Join, HunkLines, MeetsAt, OldsOf, NewsOf, Olds, News, WriteBody, Pieces, PiecesOf;
    TwoReadings(s, h);
    PiecesCount(h.body);
    CountsConcat(Pieces(h.section)[1..], PiecesOf(WriteBody(h.body)));
    CountsMissed(Opened(s, h), HunkPieces(h));
    MissedSpares(Opened(s, h), HunkPieces(h));
  }

  lemma {:induction false} MissedSpares(s: State, lines: seq<string>)
    requires forall end: nat :: end <= |lines| ==> !MeetsAt(lines, s.before, s.now, end)
    ensures Spares(s, Steps(s, lines))
    decreases |lines|
  {
    hide ReadHunk, PathOf;
    if lines != [] {
      assert !MeetsAt(lines, s.before, s.now, 0) && lines[..0] == [];
      var l, next := lines[0], Step(s, lines[0]);
      assert l != "" ==> (("\\" <= l) == (l[0] == '\\')) && (("+" <= l) == (l[0] == '+')) && (("-" <= l) == (l[0] == '-'));
      forall end: nat | end <= |lines[1..]|
        ensures !MeetsAt(lines[1..], next.before, next.now, end)
      {
        assert !MeetsAt(lines, s.before, s.now, end + 1);
        FirstOf(lines, end + 1);
      }
      MissedSpares(next, lines[1..]);
    }
  }

  /** After a hunk like that no later hunk of the diff is found and no later file: whatever they hold, every path
      but that hunk's file keeps what it had. */
  lemma LaterFilesAreLost(earlier: seq<string>, h: Hunk, later: seq<string>, path: string)
    requires var s := Steps(START, SplitLines(Join(earlier))); Idle(s) && s.file != Some(path)
    requires ProperHunk(h)
    requires forall end: nat :: end <= |HunkPieces(h)| ==> !MeetsAt(HunkPieces(h), Olds(h.body), News(h.body), end)
    ensures var before, whole := ParseUnifiedDiff(SplitLines(Join(earlier))),
                                 ParseUnifiedDiff(SplitLines(Join(earlier + HunkLines(h) + later)));
            (path in whole <==> path in before) && LinesOf(whole, path) == LinesOf(before, path)
  {
    hide Steps, SplitLines, Join, HunkLines, HunkPieces, MeetsAt, Olds, News, PiecesOf;
    var s := Steps(START, SplitLines(Join(earlier)));
    MissedHunk(s, h);
    var lines := HunkLines(h);
    TextSplits(earlier);
    TextSplits(lines);
    TextSplits(earlier + lines);
    TextSplits(earlier + lines + later);
    PiecesConcat(earlier, lines);
    PiecesConcat(earlier + lines, later);
    StepsConcat(START, PiecesOf(earlier), PiecesOf(lines));
    StepsConcat(START, PiecesOf(earlier) + PiecesOf(lines), PiecesOf(later));
    NothingReadsOn(Steps(START, PiecesOf(earlier + lines)), PiecesOf(later));
  }

  // --------------------------------------------------------------------- an example

  const FIRST: string := "crates/x/src/a.rs"
  const SECOND: string := "crates/x/src/b.rs"

  function AddedFile(path: string, index: string, count: Range, body: seq<Line>): FileDiff {
    FileDiff("a/" + path + " b/" + path, ["index " + index + " 100644", "--- a/" + path], Path(path, false), [Hunk(Range(0, 0, false), count, "", body)])
  }

  /** Two files, the first with a form feed in an added line. */
  function FeedDiff(feed: char): seq<FileDiff> {
    [AddedFile(FIRST, "8baef1b..4c1e5f2", Range(1, 2, false), [Added("a" + [feed] + "b"), Added("c")]),
     AddedFile(SECOND, "f719efd..28ce6a8", Range(1, 1, true), [Added("d")])]
  }

  lemma AddedFileIsProper(path: string, index: string, count: Range, body: seq<Line>)
    requires '\t' !in path && Olds(body) == 0 && News(body) == count.count && (count.short ==> count.count == 1)
    ensures ProperFile(AddedFile(path, index, count, body))
  {
    var f := AddedFile(path, index, count, body);
    assert f.headers[0][0] == 'i' && f.headers[1][0] == '-';
  }

  /** The lines of the second file, all of which the reader takes for lines of the first one's hunk. */
  function SwallowedLines(): seq<string> {
    ["diff --git " + ("a/" + SECOND + " b/" + SECOND), "index " + "f719efd..28ce6a8" + " 100644", "--- a/" + SECOND,
     "+++ b/" + SECOND + "", "@@ -0,0 +1 @@", "+d"]
  }

  lemma ShortBody(a: Line, b: Line)
    ensures WriteBody([a]) == [WriteLine(a)] && WriteBody([a, b]) == [WriteLine(a), WriteLine(b)]
    ensures Olds([a, b]) == Olds([a]) + Olds([b]) && News([a, b]) == News([a]) + News([b])
    ensures Olds([a]) == (if a.Removed? || a.Context? then 1 else 0) && News([a]) == (if a.Added? || a.Context? then 1 else 0)
    ensures AddedIn([a], 1) == if a.Added? then {1} else {}
    ensures a.Added? && b.Added? ==> AddedIn([a, b], 1) == {1, 2}
  {
    assert [a][1..] == [] && [b][1..] == [] && [a, b][1..] == [b];
    assert b.Added? ==> AddedIn([b], 2) == {2};
  }

  lemma TwoLines(a: string, b: string)
    ensures PiecesOf([a, b]) == Pieces(a) + Pieces(b)
  {
    hide Pieces;
    assert [a, b][1..] == [b] && [b][1..] == [];
    assert PiecesOf([b]) == Pieces(b) + [];
  }

  lemma FeedSplits(feed: char)
    requires feed as int == 0xc
    ensures HunkPieces(FeedDiff(feed)[0].hunks[0]) == ["+a", "b", "+c"]
  {
    hide SplitLines;
    var h := FeedDiff(feed)[0].hunks[0];
    var lines := ["+a" + [feed] + "b", "+c"];
    ShortBody(Added("a" + [feed] + "b"), Added("c"));
    assert "+" + ("a" + [feed] + "b") == lines[0] && "+" + "c" == lines[1];
    NothingSplits();
    assert lines[0] + "\n" == "+a" + ([feed] + "b\n") && ([feed] + "b\n")[1..] == "b\n";
    SplitStep("+a", [feed] + "b\n");
    assert "b\n" == "b" + "\n" && "\n"[1..] == "";
    SplitStep("b", "\n");
    SplitStep("+c", "\n");
    assert "" + "\n" == "\n";
    SplitStep("", "\n");
    assert Pieces(h.section) == [""] && Pieces(h.section)[1..] == [];
    TwoLines(lines[0], "+c");
  }

  lemma JoinedHold(a: string, b: string)
    requires Unbroken(a) && Unbroken(b)
    ensures Unbroken(a + b)
  {}

  lemma LiteralsHold()
    ensures Unbroken("diff --git ") && Unbroken("a/") && Unbroken(" b/") && Unbroken("--- a/") && Unbroken("+++ b/")
    ensures Unbroken("index ") && Unbroken(" 100644") && Unbroken("@@ -0,0 +1 @@") && Unbroken("+d") && Unbroken("")
  {}

  lemma ParametersHold()
    ensures Unbroken(FIRST) && Unbroken(SECOND) && Unbroken("8baef1b..4c1e5f2") && Unbroken("f719efd..28ce6a8")
  {}

  /** The header lines about a file whose name and index break nowhere. */
  lemma HeaderHolds(path: string, index: string)
    requires Unbroken(path) && Unbroken(index)
    ensures Unbroken("diff --git " + ("a/" + path + " b/" + path)) && Unbroken("index " + index + " 100644")
    ensures Unbroken("--- a/" + path) && Unbroken("+++ b/" + path + "")
  {
    hide Unbroken;
    LiteralsHold();
    JoinedHold("a/", path);
    JoinedHold("a/" + path, " b/");
    JoinedHold("a/" + path + " b/", path);
    JoinedHold("diff --git ", "a/" + path + " b/" + path);
    JoinedHold("index ", index);
    JoinedHold("index " + index, " 100644");
    JoinedHold("--- a/", path);
    JoinedHold("+++ b/", path);
    JoinedHold("+++ b/" + path, "");
  }

  lemma SecondHunk()
    ensures WriteHunks([Hunk(Range(0, 0, false), Range(1, 1, true), "", [Added("d")])]) == ["@@ -0,0 +1 @@", "+d"]
  {
    var h := Hunk(Range(0, 0, false), Range(1, 1, true), "", [Added("d")]);
    assert Decimal(0) == "0" && Decimal(1) == "1";
    ShortBody(Added("d"), Added("d"));
    assert "+" + "d" == "+d" && WriteHunkHeader(h) == "@@ -0,0 +1 @@";
    assert [h][1..] == [];
  }

  lemma OneFile(f: FileDiff)
    ensures WriteDiff([f]) == WriteFile(f)
  {
    hide WriteFile;
    assert [f][1..] == [];
  }

  lemma SecondSplits(feed: char)
    ensures PiecesOf(WriteDiff(FeedDiff(feed)[1..])) == SwallowedLines()
  {
    hide Unbroken, PiecesOf, WriteDiff, WriteHunks;
    var f := FeedDiff(feed)[1];
    assert FeedDiff(feed)[1..] == [f];
    OneFile(f);
    SecondHunk();
    assert WriteFile(f) == SwallowedLines();
    ParametersHold();
    LiteralsHold();
    HeaderHolds(SECOND, "f719efd..28ce6a8");
    UnbrokenPieces(SwallowedLines());
  }

  lemma FourSteps(s: State, a: string, b: string, c: string, rest: seq<string>)
    ensures Steps(s, [a, b, c] + rest) == Steps(Step(Step(Step(s, a), b), c), rest)
  {
    hide Step;
    var lines := [a, b, c] + rest;
    var s1, s2 := Step(s, a), Step(Step(s, a), b);
    assert lines[1..] == [b, c] + rest && Steps(s, lines) == Steps(s1, [b, c] + rest);
    assert ([b, c] + rest)[1..] == [c] + rest && Steps(s1, [b, c] + rest) == Steps(s2, [c] + rest);
    assert ([c] + rest)[1..] == rest;
  }

  /** The reader in the first file's hunk. */
  function InFirst(line: int, before: int, now: int, lines: set<int>): State {
    State(Some(FIRST), false, line, before, now, if lines == {} then map[] else map[FIRST := lines])
  }

  lemma InFirstSteps(s: State, l: string, line: int, before: int, now: int, lines: set<int>)
    requires s == InFirst(line, before, now, lines) && (before != 0 || now != 0) && l != "" && l[0] != '\\'
    ensures l[0] == '+' ==> Step(s, l) == InFirst(line + 1, before, now - 1, lines + {line})
    ensures l[0] == '-' ==> Step(s, l) == InFirst(line, before - 1, now, lines)
    ensures l[0] != '+' && l[0] != '-' ==> Step(s, l) == InFirst(line + 1, before - 1, now - 1, lines)
  {
    hide ReadHunk, PathOf;
    assert line in lines + {line};
  }

  lemma LeavesFirst(line: int, before: int, now: int, lines: set<int>, x: int)
    requires x in lines
    ensures Steps(InFirst(line, before, now, lines), []).changed == map[FIRST := lines]
  {}

  /** The reader on the two files, from the header of the first hunk on. */
  lemma FeedIsRead()
    ensures Steps(InFirst(1, 0, 2, {}), ["+a", "b", "+c"] + SwallowedLines()).changed == map[FIRST := {1, 3, 6, 8}]
  {
    hide Step, Steps, InFirst;
    var rest := SwallowedLines();
    FourSteps(InFirst(1, 0, 2, {}), "+a", "b", "+c", rest);
    InFirstSteps(InFirst(1, 0, 2, {}), "+a", 1, 0, 2, {});
    InFirstSteps(InFirst(2, 0, 1, {1}), "b", 2, 0, 1, {1});
    InFirstSteps(InFirst(3, -1, 0, {1}), "+c", 3, -1, 0, {1});
    assert {} + {1} == {1} && {1} + {3} == {1, 3};
    assert rest == [rest[0], rest[1], rest[2]] + rest[3..] && rest[3..] == [rest[3], rest[4], rest[5]] + [];
    FourSteps(InFirst(4, -1, -1, {1, 3}), rest[0], rest[1], rest[2], rest[3..]);
    InFirstSteps(InFirst(4, -1, -1, {1, 3}), rest[0], 4, -1, -1, {1, 3});
    InFirstSteps(InFirst(5, -2, -2, {1, 3}), rest[1], 5, -2, -2, {1, 3});
    InFirstSteps(InFirst(6, -3, -3, {1, 3}), rest[2], 6, -3, -3, {1, 3});
    FourSteps(InFirst(6, -4, -3, {1, 3}), rest[3], rest[4], rest[5], []);
    InFirstSteps(InFirst(6, -4, -3, {1, 3}), rest[3], 6, -4, -3, {1, 3});
    InFirstSteps(InFirst(7, -4, -4, {1, 3, 6}), rest[4], 7, -4, -4, {1, 3, 6});
    InFirstSteps(InFirst(8, -5, -5, {1, 3, 6}), rest[5], 8, -5, -5, {1, 3, 6});
    assert {1, 3} + {6} == {1, 3, 6} && {1, 3, 6} + {8} == {1, 3, 6, 8};
    LeavesFirst(9, -5, -6, {1, 3, 6, 8}, 8);
  }

  lemma FeedIsProper(feed: char)
    ensures forall f :: f in FeedDiff(feed) ==> ProperFile(f)
  {
    hide ProperFile;
    var files := FeedDiff(feed);
    var a, b, c, d := Added("a" + [feed] + "b"), Added("c"), Added("d"), files[0];
    ShortBody(a, b);
    ShortBody(b, a);
    ShortBody(c, c);
    AddedFileIsProper(FIRST, "8baef1b..4c1e5f2", Range(1, 2, false), [a, b]);
    AddedFileIsProper(SECOND, "f719efd..28ce6a8", Range(1, 1, true), [c]);
  }

  lemma IsWatched(path: string, rest: string)
    requires path == "crates/" + ("x" + rest) && "/src/" <= rest && |rest| >= 8 && rest[|rest| - 3..] == ".rs" && '\n' !in rest[5..]
    ensures IsChangedSource(path)
  {
    assert path[7..] == "x" + rest && path[8..] == rest;
    UpToStops("x", '/', rest);
  }

  lemma FeedIsWatched()
    ensures IsChangedSource(FIRST) && IsChangedSource(SECOND) && FIRST != SECOND
  {
    hide IsChangedSource;
    assert FIRST[13] != SECOND[13];
    IsWatched(FIRST, "/src/a.rs");
    IsWatched(SECOND, "/src/b.rs");
  }

  lemma OneHunk(h: Hunk)
    ensures AddedInHunks([h]) == AddedIn(h.body, h.now.start)
  {
    assert [h][1..] == [];
  }

  lemma TwoFiles(a: FileDiff, b: FileDiff, path: string)
    ensures AddedTo([a, b], path) == (if a.name.Path? && a.name.path == path then AddedInHunks(a.hunks) else {})
                                     + (if b.name.Path? && b.name.path == path then AddedInHunks(b.hunks) else {})
  {
    assert [a, b][1..] == [b] && [b][1..] == [];
    assert AddedTo([b], path) == if b.name.Path? && b.name.path == path then AddedInHunks(b.hunks) else {};
  }

  /** What the diff says it adds. */
  lemma WhatFeedAdds(feed: char, path: string)
    ensures AddedTo(FeedDiff(feed), path) == if path == FIRST then {1, 2} else if path == SECOND then {1} else {}
  {
    hide AddedTo, AddedInHunks, AddedIn;
    FeedIsWatched();
    var files := FeedDiff(feed);
    ShortBody(Added("a" + [feed] + "b"), Added("c"));
    ShortBody(Added("d"), Added("d"));
    OneHunk(files[0].hunks[0]);
    OneHunk(files[1].hunks[0]);
    TwoFiles(files[0], files[1], path);
  }

  /** A form feed in an added line: the diff adds lines 1 and 2 to the first file and line 1 to the second; its text
      is read as adding 1, 3, 6 and 8 to the first and nothing to the second. */
  lemma FormFeedMisleads(feed: char)
    requires feed as int == 0xc
    ensures forall f :: f in FeedDiff(feed) ==> ProperFile(f)
    ensures AddedTo(FeedDiff(feed), FIRST) == {1, 2} && AddedTo(FeedDiff(feed), SECOND) == {1}
    ensures ParseUnifiedDiff(WriteDiff(FeedDiff(feed))) == map[FIRST := {1, 2}, SECOND := {1}]
    ensures ParseUnifiedDiff(SplitLines(Join(WriteDiff(FeedDiff(feed))))) == map[FIRST := {1, 3, 6, 8}]
  {
    hide Steps, SplitLines, Join, IsChangedSource, ProperFile, AddedTo, WriteName, WriteHunks, HunkPieces, PiecesOf, Idle, ReadHunk;
    WhatFeedAdds(feed, FIRST);
    WhatFeedAdds(feed, SECOND);
    FeedIsProper(feed);
    FeedIsWatched();
    var files := FeedDiff(feed);
    OnLines(feed);
    FeedHead(feed);
    var f := files[0];
    var h := f.hunks[0];
    assert f in files;
    var head := ["diff --git " + f.command] + f.headers + WriteName(f.name);
    var named := START.(inHeader := true, file := Some(FIRST));
    ProperParts(f);
    assert h in f.hunks;
    NothingCounted(START);
    NothingCounted(named);
    HeadInStep(START, f);
    TwoReadings(named, h);
    FeedSplits(feed);
    SecondSplits(feed);
    TextSplits(HunkLines(h));
    TextSplits(WriteDiff(files));
    OneWritten(h);
    assert f.hunks == [h];
    PiecesConcat(head, HunkLines(h));
    PiecesConcat(head + HunkLines(h), WriteDiff(files[1..]));
    StepsConcat(START, PiecesOf(head), PiecesOf(HunkLines(h)));
    StepsConcat(START, PiecesOf(head) + PiecesOf(HunkLines(h)), SwallowedLines());
    StepsConcat(Opened(named, h), ["+a", "b", "+c"], SwallowedLines());
    FeedIsRead();
    assert Opened(named, h) == InFirst(1, 0, 2, {});
  }

  lemma ProperParts(f: FileDiff)
    requires ProperFile(f)
    ensures (forall h :: h in f.headers ==> PlainHeader(h)) && forall h :: h in f.hunks ==> ProperHunk(h)
  {}

  lemma NothingCounted(s: State)
    ensures s.before == 0 && s.now == 0 ==> Idle(s)
  {}

  lemma OneWritten(h: Hunk)
    ensures WriteHunks([h]) == HunkLines(h)
  {
    assert [h][1..] == [];
  }

  lemma FeedHead(feed: char)
    ensures var f := FeedDiff(feed)[0]; HeadHolds(f) && WatchedFile(f.name) == Some(FIRST)
  {
    hide SplitLines, ReadHunk, ProperFile, IsChangedSource, PiecesOf, Unbroken, PlainHeader;
    FeedIsWatched();
    FeedIsProper(feed);
    ParametersHold();
    HeaderHolds(FIRST, "8baef1b..4c1e5f2");
    var f := FeedDiff(feed)[0];
    assert f in FeedDiff(feed);
    UnbrokenPieces(f.headers);
    ProperParts(f);
  }

  lemma OnLines(feed: char)
    ensures ParseUnifiedDiff(WriteDiff(FeedDiff(feed))) == map[FIRST := {1, 2}, SECOND := {1}]
  {
    hide ParseUnifiedDiff, WriteDiff, IsChangedSource, AddedTo, ProperFile, FeedDiff;
    FeedIsProper(feed);
    FeedIsWatched();
    var changed := ParseUnifiedDiff(WriteDiff(FeedDiff(feed)));
    forall path
      ensures path in changed <==> path in map[FIRST := {1, 2}, SECOND := {1}]
      ensures path in changed ==> changed[path] == map[FIRST := {1, 2}, SECOND := {1}][path]
    {
      DiffIsRead(FeedDiff(feed), path);
      WhatFeedAdds(feed, path);
    }
  }
}
