/** Printing hunks in the documented patch grammar (parser.rs:6-24), and the proof that
    parsing the print gives the hunks back. */
module PatchPrinter {
  import opened Text
  import opened Patch
  import opened StreamingParser
  import ParserRuns

  // ---------------------------------------------------------------- what can be printed

  /** A path or a `@@` context: not empty, one line, nothing for a trim to take off its end. */
  predicate IsName(s: string) {
    s != "" && RightTrimmed(s) && NoLf(s)
  }

  predicate NoneHasLf(lines: seq<string>) {
    forall i :: 0 <= i < |lines| ==> NoLf(lines[i])
  }

  ghost predicate ChunkWellFormed(chunk: UpdateFileChunk) {
    && chunk.ContextOk() && !chunk.IsEmpty()
    && NoneHasLf(chunk.oldLines) && NoneHasLf(chunk.newLines)
    && (chunk.changeContext.Some? ==> IsName(chunk.changeContext.value))
  }

  /** What the grammar can write down: an added file is empty or ends in a line feed, an update hunk
      has chunks and these have lines. */
  ghost predicate HunkWellFormed(hunk: Hunk) {
    match hunk
    case AddFile(path, contents) =>
      var pieces := SplitLf(contents);
      IsName(path) && pieces[|pieces| - 1] == ""
    case DeleteFile(path) => IsName(path)
    case UpdateFile(path, movePath, chunks) =>
      && IsName(path) && (movePath.Some? ==> IsName(movePath.value))
      && chunks != [] && forall i :: 0 <= i < |chunks| ==> ChunkWellFormed(chunks[i])
  }

  ghost predicate AllWellFormed(hunks: seq<Hunk>) {
    forall i :: 0 <= i < |hunks| ==> HunkWellFormed(hunks[i])
  }

  predicate IdPrintable(environmentId: Option<string>) {
    environmentId.Some? ==> IsName(environmentId.value) && !IsWhitespace(environmentId.value[0])
  }

  // ---------------------------------------------------------------- the printer

  datatype DiffLine = Kept(text: string) | Removed(text: string) | Added(text: string)
  {
    function Printed(): string {
      match this
      case Kept(text) => " " + text
      case Removed(text) => "-" + text
      case Added(text) => "+" + text
    }
  }

  function PushLine(chunk: UpdateFileChunk, line: DiffLine): UpdateFileChunk {
    match line
    case Kept(text) => chunk.PushContextLine(text)
    case Removed(text) => chunk.PushRemoved(text)
    case Added(text) => chunk.PushAdded(text)
  }

  function PushLines(chunk: UpdateFileChunk, lines: seq<DiffLine>): UpdateFileChunk
    decreases |lines|
  {
    if lines == [] then chunk else PushLines(PushLine(chunk, lines[0]), lines[1..])
  }

  /** Between context lines, the removed lines and then the added ones. */
  function DiffFrom(oldLines: seq<string>, newLines: seq<string>, context: seq<(nat, nat)>, i: nat, j: nat)
    : seq<DiffLine>
    requires i <= |oldLines| && j <= |newLines|
    decreases |oldLines| - i + |newLines| - j
  {
    if i < |oldLines| && (context == [] || i < context[0].0) then
      [Removed(oldLines[i])] + DiffFrom(oldLines, newLines, context, i + 1, j)
    else if j < |newLines| && (context == [] || j < context[0].1) then
      [Added(newLines[j])] + DiffFrom(oldLines, newLines, context, i, j + 1)
    else if i < |oldLines| && j < |newLines| then
      [Kept(oldLines[i])] + DiffFrom(oldLines, newLines, context[1..], i + 1, j + 1)
    else []
  }

  function DiffOf(chunk: UpdateFileChunk): seq<DiffLine> {
    DiffFrom(chunk.oldLines, chunk.newLines, chunk.contextLineIndices, 0, 0)
  }

  function PrintedLines(lines: seq<DiffLine>): seq<string> {
    if lines == [] then [] else [lines[0].Printed()] + PrintedLines(lines[1..])
  }

  function ContextLine(context: Option<string>): string {
    if context.Some? then CHANGE_CONTEXT + context.value else EMPTY_CHANGE_CONTEXT
  }

  function ChunkLines(chunk: UpdateFileChunk): seq<string> {
    [ContextLine(chunk.changeContext)] + PrintedLines(DiffOf(chunk)) + if chunk.isEndOfFile then [END_OF_FILE] else []
  }

  function ChunksLines(chunks: seq<UpdateFileChunk>): seq<string> {
    if chunks == [] then [] else ChunkLines(chunks[0]) + ChunksLines(chunks[1..])
  }

  function AddedLines(lines: seq<string>): seq<string> {
    if lines == [] then [] else ["+" + lines[0]] + AddedLines(lines[1..])
  }

  function HunkLines(hunk: Hunk): seq<string> {
    match hunk
    case AddFile(path, contents) =>
      var pieces := SplitLf(contents);
      [ADD_FILE + path] + AddedLines(pieces[..|pieces| - 1])
    case DeleteFile(path) => [DELETE_FILE + path]
    case UpdateFile(path, movePath, chunks) =>
      [UPDATE_FILE + path] + (if movePath.Some? then [MOVE_TO + movePath.value] else []) + ChunksLines(chunks)
  }

  function HunksLines(hunks: seq<Hunk>): seq<string> {
    if hunks == [] then [] else HunkLines(hunks[0]) + HunksLines(hunks[1..])
  }

  function IdLines(environmentId: Option<string>): seq<string> {
    if environmentId.Some? then [ENVIRONMENT_ID + " " + environmentId.value] else []
  }

  function PatchBody(hunks: seq<Hunk>, environmentId: Option<string>): seq<string> {
    [BEGIN_PATCH] + IdLines(environmentId) + HunksLines(hunks)
  }

  function Print(hunks: seq<Hunk>, environmentId: Option<string>): string {
    JoinLf(PatchBody(hunks, environmentId) + [END_PATCH])
  }

  // ---------------------------------------------------------------- a chunk from its diff lines

  /** A chunk as it is after its first `i` old lines, `j` new lines and `k` context pairs. */
  function UpTo(chunk: UpdateFileChunk, i: nat, j: nat, k: nat): UpdateFileChunk
    requires i <= |chunk.oldLines| && j <= |chunk.newLines| && k <= |chunk.contextLineIndices|
  {
    UpdateFileChunk(chunk.changeContext, chunk.oldLines[..i], chunk.newLines[..j], chunk.contextLineIndices[..k], false)
  }

  lemma UpToRemoved(chunk: UpdateFileChunk, i: nat, j: nat, k: nat)
    requires i < |chunk.oldLines| && j <= |chunk.newLines| && k <= |chunk.contextLineIndices|
    ensures UpTo(chunk, i + 1, j, k) == PushLine(UpTo(chunk, i, j, k), Removed(chunk.oldLines[i]))
  {
  }

  lemma UpToAdded(chunk: UpdateFileChunk, i: nat, j: nat, k: nat)
    requires i <= |chunk.oldLines| && j < |chunk.newLines| && k <= |chunk.contextLineIndices|
    ensures UpTo(chunk, i, j + 1, k) == PushLine(UpTo(chunk, i, j, k), Added(chunk.newLines[j]))
  {
  }

  lemma UpToKept(chunk: UpdateFileChunk, i: nat, j: nat, k: nat)
    requires chunk.ContextOk() && k < |chunk.contextLineIndices| && chunk.contextLineIndices[k] == (i, j)
    ensures UpTo(chunk, i + 1, j + 1, k + 1) == PushLine(UpTo(chunk, i, j, k), Kept(chunk.oldLines[i]))
  {
    hide Increasing;
  }

  /** The next context pair lies ahead, and in both lists. */
  lemma NextPair(chunk: UpdateFileChunk, i: nat, j: nat, k: nat)
    requires chunk.ContextOk() && k <= |chunk.contextLineIndices|
    requires Increasing(chunk.contextLineIndices[k..], i, j)
    ensures k < |chunk.contextLineIndices| ==>
      var pair := chunk.contextLineIndices[k];
      && chunk.contextLineIndices[k..][0] == pair
      && chunk.contextLineIndices[k..][1..] == chunk.contextLineIndices[k + 1..]
      && i <= pair.0 < |chunk.oldLines| && j <= pair.1 < |chunk.newLines|
      && Increasing(chunk.contextLineIndices[k + 1..], pair.0 + 1, pair.1 + 1)
  {
    if k < |chunk.contextLineIndices| {
      assert chunk.contextLineIndices[k..][1..] == chunk.contextLineIndices[k + 1..];
    }
  }

  /** What remains after `i` old lines, `j` new lines and `k` context pairs gives the whole chunk. */
  ghost predicate Rebuilds(chunk: UpdateFileChunk, i: nat, j: nat, k: nat)
    requires i <= |chunk.oldLines| && j <= |chunk.newLines| && k <= |chunk.contextLineIndices|
  {
    PushLines(UpTo(chunk, i, j, k), DiffFrom(chunk.oldLines, chunk.newLines, chunk.contextLineIndices[k..], i, j))
    == chunk.(isEndOfFile := false)
  }

  lemma RemovedStep(chunk: UpdateFileChunk, i: nat, j: nat, k: nat)
    requires i < |chunk.oldLines| && j <= |chunk.newLines| && k <= |chunk.contextLineIndices|
    requires k < |chunk.contextLineIndices| ==> i < chunk.contextLineIndices[k].0
    requires Rebuilds(chunk, i + 1, j, k)
    ensures Rebuilds(chunk, i, j, k)
  {
    hide PushLines, PushLine, UpTo;
    UpToRemoved(chunk, i, j, k);
    PushHead(UpTo(chunk, i, j, k), Removed(chunk.oldLines[i]),
             DiffFrom(chunk.oldLines, chunk.newLines, chunk.contextLineIndices[k..], i + 1, j));
  }

  lemma AddedStep(chunk: UpdateFileChunk, i: nat, j: nat, k: nat)
    requires i <= |chunk.oldLines| && j < |chunk.newLines| && k <= |chunk.contextLineIndices|
    requires if k < |chunk.contextLineIndices| then
               i == chunk.contextLineIndices[k].0 && j < chunk.contextLineIndices[k].1
             else i == |chunk.oldLines|
    requires Rebuilds(chunk, i, j + 1, k)
    ensures Rebuilds(chunk, i, j, k)
  {
    hide PushLines, PushLine, UpTo;
    UpToAdded(chunk, i, j, k);
    PushHead(UpTo(chunk, i, j, k), Added(chunk.newLines[j]),
             DiffFrom(chunk.oldLines, chunk.newLines, chunk.contextLineIndices[k..], i, j + 1));
  }

  lemma KeptStep(chunk: UpdateFileChunk, i: nat, j: nat, k: nat)
    requires chunk.ContextOk() && i < |chunk.oldLines| && j < |chunk.newLines|
    requires k < |chunk.contextLineIndices| && chunk.contextLineIndices[k] == (i, j)
    requires Rebuilds(chunk, i + 1, j + 1, k + 1)
    ensures Rebuilds(chunk, i, j, k)
  {
    hide PushLines, PushLine, UpTo, UpdateFileChunk.ContextOk;
    UpToKept(chunk, i, j, k);
    assert chunk.contextLineIndices[k..][1..] == chunk.contextLineIndices[k + 1..];
    PushHead(UpTo(chunk, i, j, k), Kept(chunk.oldLines[i]),
             DiffFrom(chunk.oldLines, chunk.newLines, chunk.contextLineIndices[k + 1..], i + 1, j + 1));
  }

  lemma EndStep(chunk: UpdateFileChunk)
    ensures Rebuilds(chunk, |chunk.oldLines|, |chunk.newLines|, |chunk.contextLineIndices|)
  {
  }

  lemma {:induction false} DiffRebuilds(chunk: UpdateFileChunk, i: nat, j: nat, k: nat)
    requires chunk.ContextOk() && i <= |chunk.oldLines| && j <= |chunk.newLines| && k <= |chunk.contextLineIndices|
    requires Increasing(chunk.contextLineIndices[k..], i, j)
    ensures Rebuilds(chunk, i, j, k)
    decreases |chunk.oldLines| - i + |chunk.newLines| - j
  {
    NextPair(chunk, i, j, k);
    hide Rebuilds, UpdateFileChunk.ContextOk;
    var more := k < |chunk.contextLineIndices|;
    var pair := if more then chunk.contextLineIndices[k] else (|chunk.oldLines|, |chunk.newLines|);
    if i < pair.0 {
      DiffRebuilds(chunk, i + 1, j, k);
      RemovedStep(chunk, i, j, k);
    } else if j < pair.1 {
      DiffRebuilds(chunk, i, j + 1, k);
      AddedStep(chunk, i, j, k);
    } else if more {
      DiffRebuilds(chunk, i + 1, j + 1, k + 1);
      KeptStep(chunk, i, j, k);
    } else {
      EndStep(chunk);
    }
  }

  lemma PushHead(chunk: UpdateFileChunk, line: DiffLine, rest: seq<DiffLine>)
    ensures PushLines(chunk, [line] + rest) == PushLines(PushLine(chunk, line), rest)
  {
    hide PushLine;
    assert ([line] + rest)[1..] == rest;
  }

  /** The printed diff pushes exactly the chunk, context pairs included. */
  lemma DiffRoundTrip(chunk: UpdateFileChunk)
    requires chunk.ContextOk()
    ensures PushLines(EMPTY_CHUNK.(changeContext := chunk.changeContext), DiffOf(chunk)) == chunk.(isEndOfFile := false)
  {
    assert chunk.contextLineIndices[0..] == chunk.contextLineIndices;
    assert UpTo(chunk, 0, 0, 0) == EMPTY_CHUNK.(changeContext := chunk.changeContext);
    hide PushLines, DiffFrom;
    DiffRebuilds(chunk, 0, 0, 0);
  }

  // ---------------------------------------------------------------- reading printed lines

  /** The lines are read without an error, from `s` to `t`. */
  predicate ReadsTo(s: State, lines: seq<string>, t: State) {
    ParserRuns.FeedLines(s, lines) == Fed(Snapshot("", t), None)
  }

  lemma {:induction false} ReadsConcat(s: State, a: seq<string>, t: State, b: seq<string>, u: State)
    requires ReadsTo(s, a, t) && ReadsTo(t, b, u)
    ensures ReadsTo(s, a + b, u)
    decreases |a|
  {
    hide FeedLine;
    if a == [] {
      assert a + b == b;
    } else {
      assert (a + b)[1..] == a[1..] + b;
      var fed := FeedLine(s, a[0]);
      ParserRuns.FeedLineEmptiesBuffer(s, a[0]);
      ReadsConcat(fed.at.state, a[1..], t, b, u);
    }
  }

  function Numbered(s: State): State {
    s.(lineNumber := s.lineNumber + 1)
  }

  lemma ReadsLine(s: State, line: string, t: State)
    requires AfterLine(Numbered(s), line) == Ok(t)
    ensures ReadsTo(s, [line], t)
  {
    hide AfterLine;
    assert [line][1..] == [] && ParserRuns.FeedLines(t, []) == Fed(Snapshot("", t), None);
    assert FeedLine(s, line) == Fed(Snapshot("", t), None);
  }

  /** A marker with a name behind it is read as it stands. */
  lemma MarkerLine(marker: string, name: string)
    requires marker != "" && marker[0] == '*' && IsName(name)
    ensures var line := marker + name;
      Trim(line) == line && TrimEnd(line) == line
  {
    hide TrimEnd, TrimStart, NoLf;
    var line := marker + name;
    assert line[|line| - 1] == name[|name| - 1];
    TrimEndKeeps(line);
    TrimKeeps(line);
  }

  lemma AddHeader(name: string, beforeHunks: bool)
    ensures HeaderOf(ADD_FILE + name, beforeHunks) == Add(name)
  {
    var line := ADD_FILE + name;
    assert line[4] == 'A' && line[|ADD_FILE|..] == name;
    assert ENVIRONMENT_ID[4] == 'E' && END_PATCH[4] == 'E';
  }

  lemma DeleteHeader(name: string, beforeHunks: bool)
    ensures HeaderOf(DELETE_FILE + name, beforeHunks) == Delete(name)
  {
    var line := DELETE_FILE + name;
    assert line[4] == 'D' && line[|DELETE_FILE|..] == name;
    assert ENVIRONMENT_ID[4] == 'E' && END_PATCH[4] == 'E' && ADD_FILE[4] == 'A';
  }

  lemma UpdateHeader(name: string, beforeHunks: bool)
    ensures HeaderOf(UPDATE_FILE + name, beforeHunks) == Update(name)
  {
    var line := UPDATE_FILE + name;
    assert line[4] == 'U' && line[|UPDATE_FILE|..] == name;
    assert ENVIRONMENT_ID[4] == 'E' && END_PATCH[4] == 'E' && ADD_FILE[4] == 'A' && DELETE_FILE[4] == 'D';
  }

  lemma MoveLine(name: string)
    ensures HeaderOf(MOVE_TO + name, false) == NotAHeader && MarkerOf(MOVE_TO + name) == MoveTo(name)
  {
    var line := MOVE_TO + name;
    assert line[4] == 'M' && line[|MOVE_TO|..] == name;
    assert END_PATCH[4] == 'E' && ADD_FILE[4] == 'A' && DELETE_FILE[4] == 'D' && UPDATE_FILE[4] == 'U';
  }

  lemma EndOfFileLine()
    ensures HeaderOf(END_OF_FILE, false) == NotAHeader && MarkerOf(END_OF_FILE) == EndOfFile
    ensures TrimEnd(END_OF_FILE) == END_OF_FILE
  {
    var line := END_OF_FILE;
    assert line[0] == '*' && line[4] == 'E' && line[8] == 'o' && line[|line| - 1] == 'e';
    assert END_PATCH[8] == 'P' && ADD_FILE[4] == 'A' && DELETE_FILE[4] == 'D' && UPDATE_FILE[4] == 'U'
           && MOVE_TO[4] == 'M';
    TrimEndKeeps(line);
  }

  /** A line that starts with neither `*` nor `@` is no header and no marker. */
  lemma PlainLine(line: string, beforeHunks: bool)
    requires line == "" || (line[0] != '*' && line[0] != '@')
    ensures HeaderOf(line, beforeHunks) == NotAHeader && MarkerOf(line) == NotAMarker
  {
    assert ENVIRONMENT_ID[0] == '*' && END_PATCH[0] == '*' && ADD_FILE[0] == '*' && DELETE_FILE[0] == '*';
    assert UPDATE_FILE[0] == '*' && MOVE_TO[0] == '*' && END_OF_FILE[0] == '*';
    assert EMPTY_CHANGE_CONTEXT[0] == '@' && CHANGE_CONTEXT[0] == '@';
  }

  lemma ContextLineRead(context: Option<string>)
    requires context.Some? ==> IsName(context.value)
    ensures var line := ContextLine(context);
      && TrimEnd(line) == line
      && HeaderOf(line, false) == NotAHeader && MarkerOf(line) == Context(context)
  {
    var line := ContextLine(context);
    assert line[0] == '@'
           && (context.Some? ==> line[3..] == context.value && line[|line| - 1] == context.value[|context.value| - 1]);
    assert MOVE_TO[0] == '*' && END_PATCH[0] == '*' && ADD_FILE[0] == '*' && DELETE_FILE[0] == '*'
           && UPDATE_FILE[0] == '*';
    hide TrimEnd, NoLf;
    TrimEndKeeps(line);
  }

  // ---------------------------------------------------------------- an update hunk

  /** `s` with the hunk in progress behind its hunks, `count` lines later. */
  function At(s: State, hunk: Hunk, count: nat): State {
    s.(hunks := s.hunks + [hunk], lineNumber := s.lineNumber + count)
  }

  lemma UpdatingLine(s: State, hunk: Hunk, line: string, after: Hunk)
    requires s.mode.InUpdateFile? && hunk.UpdateFile?
    requires HeaderOf(TrimEnd(line), false) == NotAHeader
    requires AfterUpdateLine(hunk, line, s.lineNumber + 1) == Ok(after)
    ensures ReadsTo(At(s, hunk, 0), [line], At(s, after, 1))
  {
    hide TrimEnd, HeaderOf, AfterUpdateLine, ReadsTo;
    var before := At(s, hunk, 0);
    assert before.hunks[|before.hunks| - 1] == hunk && before.hunks[..|before.hunks| - 1] == s.hunks;
    assert AfterHeader(Numbered(before), TrimEnd(line)) == Ok(None);
    assert AfterBodyLine(Numbered(before), line) == Ok(At(s, after, 1));
    ReadsLine(before, line, At(s, after, 1));
  }

  lemma DiffLineRead(line: DiffLine)
    ensures var printed := line.Printed();
      && printed != ""
      && HeaderOf(TrimEnd(printed), false) == NotAHeader && MarkerOf(TrimEnd(printed)) == NotAMarker
  {
    var printed := line.Printed();
    assert printed[0] == ' ' || printed[0] == '+' || printed[0] == '-';
    assert line.text != "" ==> printed[|printed| - 1] == line.text[|line.text| - 1];
    PlainLine(TrimEnd(printed), false);
  }

  lemma DiffLinePushes(front: seq<UpdateFileChunk>, chunk: UpdateFileChunk, line: DiffLine)
    ensures AfterDiffLine(front + [chunk], line.Printed()) == Some(front + [PushLine(chunk, line)])
  {
    var printed := line.Printed();
    assert printed[1..] == line.text;
    assert (front + [chunk])[..|front|] == front && (front + [chunk])[|front|] == chunk;
  }

  lemma DiffLineUpdates(hunk: Hunk, front: seq<UpdateFileChunk>, chunk: UpdateFileChunk, line: DiffLine,
                        lineNumber: nat)
    requires hunk.UpdateFile? && hunk.chunks == front + [chunk] && !chunk.isEndOfFile
    ensures AfterUpdateLine(hunk, line.Printed(), lineNumber) == Ok(hunk.(chunks := front + [PushLine(chunk, line)]))
  {
    hide TrimEnd, MarkerOf, HeaderOf, PushLine, AfterDiffLine, NoLf;
    DiffLineRead(line);
    DiffLinePushes(front, chunk, line);
    assert hunk.chunks[|hunk.chunks| - 1] == chunk;
  }

  predicate DiffHasNoLf(lines: seq<DiffLine>) {
    forall i :: 0 <= i < |lines| ==> NoLf(lines[i].text)
  }

  lemma {:induction false} DiffFromHasNoLf(oldLines: seq<string>, newLines: seq<string>, context: seq<(nat, nat)>,
                                           i: nat, j: nat)
    requires i <= |oldLines| && j <= |newLines| && NoneHasLf(oldLines) && NoneHasLf(newLines)
    ensures DiffHasNoLf(DiffFrom(oldLines, newLines, context, i, j))
    decreases |oldLines| - i + |newLines| - j
  {
    hide NoLf;
    if i < |oldLines| && (context == [] || i < context[0].0) {
      DiffFromHasNoLf(oldLines, newLines, context, i + 1, j);
    } else if j < |newLines| && (context == [] || j < context[0].1) {
      DiffFromHasNoLf(oldLines, newLines, context, i, j + 1);
    } else if i < |oldLines| && j < |newLines| {
      DiffFromHasNoLf(oldLines, newLines, context[1..], i + 1, j + 1);
    }
  }

  lemma {:induction false} DiffReads(s: State, hunk: Hunk, front: seq<UpdateFileChunk>, chunk: UpdateFileChunk,
                                     lines: seq<DiffLine>)
    requires s.mode.InUpdateFile? && hunk.UpdateFile? && hunk.chunks == front + [chunk] && !chunk.isEndOfFile
    ensures |PrintedLines(lines)| == |lines|
    ensures ReadsTo(At(s, hunk, 0), PrintedLines(lines),
                    At(s, hunk.(chunks := front + [PushLines(chunk, lines)]), |lines|))
    decreases |lines|
  {
    if lines == [] {
      PushNothing(chunk);
      assert hunk.(chunks := front + [chunk]) == hunk;
    } else {
      var after := hunk.(chunks := front + [PushLine(chunk, lines[0])]);
      assert !PushLine(chunk, lines[0]).isEndOfFile;
      hide ReadsTo, DiffLine.Printed, PushLine, AfterUpdateLine;
      DiffReads(Numbered(s), after, front, PushLine(chunk, lines[0]), lines[1..]);
      hide PushLines, PrintedLines;
      OneDiffLineReads(s, hunk, front, chunk, lines[0]);
      PrintedHead(lines);
      PushHead(chunk, lines[0], lines[1..]);
      assert [lines[0]] + lines[1..] == lines;
      ReadsConcat(At(s, hunk, 0), [lines[0].Printed()], At(s, after, 1), PrintedLines(lines[1..]),
                  At(s, hunk.(chunks := front + [PushLines(chunk, lines)]), |lines|));
    }
  }

  lemma PrintedHead(lines: seq<DiffLine>)
    requires lines != []
    ensures PrintedLines(lines) == [lines[0].Printed()] + PrintedLines(lines[1..])
  {
  }

  lemma PushNothing(chunk: UpdateFileChunk)
    ensures PushLines(chunk, []) == chunk
  {
  }

  lemma OneDiffLineReads(s: State, hunk: Hunk, front: seq<UpdateFileChunk>, chunk: UpdateFileChunk, line: DiffLine)
    requires s.mode.InUpdateFile? && hunk.UpdateFile? && hunk.chunks == front + [chunk] && !chunk.isEndOfFile
    ensures ReadsTo(At(s, hunk, 0), [line.Printed()], At(s, hunk.(chunks := front + [PushLine(chunk, line)]), 1))
  {
    hide PushLine, DiffLine.Printed, NoLf, AfterUpdateLine, ReadsTo, HeaderOf, TrimEnd, MarkerOf;
    DiffLineUpdates(hunk, front, chunk, line, s.lineNumber + 1);
    DiffLineRead(line);
    UpdatingLine(s, hunk, line.Printed(), hunk.(chunks := front + [PushLine(chunk, line)]));
  }

  predicate LastHasLines(chunks: seq<UpdateFileChunk>) {
    chunks != [] ==> !chunks[|chunks| - 1].IsEmpty()
  }

  lemma ContextReads(s: State, hunk: Hunk, context: Option<string>)
    requires s.mode.InUpdateFile? && hunk.UpdateFile? && LastHasLines(hunk.chunks)
    requires context.Some? ==> IsName(context.value)
    ensures ReadsTo(At(s, hunk, 0), [ContextLine(context)],
                    At(s, hunk.(chunks := hunk.chunks + [EMPTY_CHUNK.(changeContext := context)]), 1))
  {
    hide ContextLine, IsName, TrimEnd, MarkerOf, HeaderOf, ReadsTo;
    ContextLineRead(context);
    var after := hunk.(chunks := hunk.chunks + [EMPTY_CHUNK.(changeContext := context)]);
    EmptyIsNoContext();
    assert AfterUpdateLine(hunk, ContextLine(context), s.lineNumber + 1) == Ok(after);
    UpdatingLine(s, hunk, ContextLine(context), after);
  }

  lemma EmptyIsNoContext()
    ensures MarkerOf("") == NotAMarker
  {
  }

  lemma EndOfFileReads(s: State, hunk: Hunk, front: seq<UpdateFileChunk>, chunk: UpdateFileChunk)
    requires s.mode.InUpdateFile? && hunk.UpdateFile? && hunk.chunks == front + [chunk]
    requires !chunk.isEndOfFile && !chunk.IsEmpty()
    ensures ReadsTo(At(s, hunk, 0), [END_OF_FILE], At(s, hunk.(chunks := front + [chunk.(isEndOfFile := true)]), 1))
  {
    hide TrimEnd, MarkerOf, HeaderOf, ReadsTo;
    EndOfFileLine();
    var after := hunk.(chunks := front + [chunk.(isEndOfFile := true)]);
    assert hunk.chunks[|hunk.chunks| - 1] == chunk && hunk.chunks[..|hunk.chunks| - 1] == front;
    assert AfterUpdateLine(hunk, END_OF_FILE, s.lineNumber + 1) == Ok(after);
    UpdatingLine(s, hunk, END_OF_FILE, after);
  }

  /** Inside an update hunk, the lines turn `before` into `after`. */
  ghost predicate Builds(s: State, before: Hunk, lines: seq<string>, after: Hunk) {
    ReadsTo(At(s, before, 0), lines, At(s, after, |lines|))
  }

  function Later(s: State, count: nat): State {
    s.(lineNumber := s.lineNumber + count)
  }

  lemma BuildsConcat(s: State, before: Hunk, a: seq<string>, between: Hunk, b: seq<string>, after: Hunk)
    requires Builds(s, before, a, between) && Builds(Later(s, |a|), between, b, after)
    ensures Builds(s, before, a + b, after)
  {
    hide ReadsTo;
    ReadsConcat(At(s, before, 0), a, At(s, between, |a|), b, At(s, after, |a| + |b|));
  }

  lemma ChunkOpens(s: State, hunk: Hunk, chunk: UpdateFileChunk)
    requires s.mode.InUpdateFile? && hunk.UpdateFile? && LastHasLines(hunk.chunks) && ChunkWellFormed(chunk)
    ensures Builds(s, hunk, [ContextLine(chunk.changeContext)],
                   hunk.(chunks := hunk.chunks + [EMPTY_CHUNK.(changeContext := chunk.changeContext)]))
  {
    hide ReadsTo, UpdateFileChunk.ContextOk, NoneHasLf, ContextLine;
    ContextReads(s, hunk, chunk.changeContext);
  }

  lemma ChunkFills(s: State, hunk: Hunk, front: seq<UpdateFileChunk>, chunk: UpdateFileChunk)
    requires s.mode.InUpdateFile? && hunk.UpdateFile? && ChunkWellFormed(chunk)
    requires hunk.chunks == front + [EMPTY_CHUNK.(changeContext := chunk.changeContext)]
    ensures Builds(s, hunk, PrintedLines(DiffOf(chunk)), hunk.(chunks := front + [chunk.(isEndOfFile := false)]))
  {
    hide ReadsTo, PushLines, PrintedLines;
    DiffRoundTrip(chunk);
    DiffReads(s, hunk, front, EMPTY_CHUNK.(changeContext := chunk.changeContext), DiffOf(chunk));
  }

  lemma ChunkEnds(s: State, hunk: Hunk, front: seq<UpdateFileChunk>, chunk: UpdateFileChunk)
    requires s.mode.InUpdateFile? && hunk.UpdateFile? && !chunk.IsEmpty()
    requires hunk.chunks == front + [chunk.(isEndOfFile := false)]
    ensures Builds(s, hunk, if chunk.isEndOfFile then [END_OF_FILE] else [], hunk.(chunks := front + [chunk]))
  {
    hide ReadsTo;
    if chunk.isEndOfFile {
      EndOfFileReads(s, hunk, front, chunk.(isEndOfFile := false));
      assert chunk.(isEndOfFile := false).(isEndOfFile := true) == chunk;
    } else {
      BuildsNothing(s, hunk);
    }
  }

  lemma BuildsNothing(s: State, hunk: Hunk)
    ensures Builds(s, hunk, [], hunk)
  {
  }

  lemma ChunkReads(s: State, hunk: Hunk, chunk: UpdateFileChunk)
    requires s.mode.InUpdateFile? && hunk.UpdateFile? && LastHasLines(hunk.chunks) && ChunkWellFormed(chunk)
    ensures Builds(s, hunk, ChunkLines(chunk), hunk.(chunks := hunk.chunks + [chunk]))
  {
    var front := hunk.chunks;
    var started := hunk.(chunks := front + [EMPTY_CHUNK.(changeContext := chunk.changeContext)]);
    var filled := hunk.(chunks := front + [chunk.(isEndOfFile := false)]);
    var head, body := [ContextLine(chunk.changeContext)], PrintedLines(DiffOf(chunk));
    assert !chunk.IsEmpty();
    hide Builds, ContextLine, PrintedLines, DiffOf, UpdateFileChunk.IsEmpty, ChunkWellFormed;
    ChunkOpens(s, hunk, chunk);
    ChunkFills(Later(s, 1), started, front, chunk);
    BuildsConcat(s, hunk, head, started, body, filled);
    ChunkEnds(Later(s, |head + body|), filled, front, chunk);
    BuildsConcat(s, hunk, head + body, filled, if chunk.isEndOfFile then [END_OF_FILE] else [],
                 hunk.(chunks := front + [chunk]));
  }

  lemma {:induction false} ChunksRead(s: State, hunk: Hunk, chunks: seq<UpdateFileChunk>)
    requires s.mode.InUpdateFile? && hunk.UpdateFile? && LastHasLines(hunk.chunks)
    requires forall i :: 0 <= i < |chunks| ==> ChunkWellFormed(chunks[i])
    ensures Builds(s, hunk, ChunksLines(chunks), hunk.(chunks := hunk.chunks + chunks))
    decreases |chunks|
  {
    hide Builds, ChunkLines, ChunkWellFormed, LastHasLines;
    if chunks == [] {
      BuildsNothing(s, hunk);
      assert hunk.chunks + chunks == hunk.chunks;
    } else {
      var chunk, rest := chunks[0], chunks[1..];
      var after := hunk.(chunks := hunk.chunks + [chunk]);
      ChunkReads(s, hunk, chunk);
      LastOf(hunk.chunks, chunk);
      ChunksRead(Later(s, |ChunkLines(chunk)|), after, rest);
      BuildsConcat(s, hunk, ChunkLines(chunk), after, ChunksLines(rest), after.(chunks := after.chunks + rest));
      ConsLast(hunk.chunks, chunks);
    }
  }

  lemma ConsLast<T>(a: seq<T>, b: seq<T>)
    requires b != []
    ensures a + [b[0]] + b[1..] == a + b
  {
  }

  lemma LastOf(front: seq<UpdateFileChunk>, chunk: UpdateFileChunk)
    requires ChunkWellFormed(chunk)
    ensures LastHasLines(front + [chunk])
  {
  }

  // ---------------------------------------------------------------- the other hunks

  /** A state in which a header may open the next hunk. */
  predicate Ready(s: State) {
    && (s.mode.StartedPatch? || s.mode.InAddFile? || s.mode.InDeleteFile? || s.mode.InUpdateFile?)
    && (s.hunks != [] && s.hunks[|s.hunks| - 1].UpdateFile? ==>
         s.hunks[|s.hunks| - 1].chunks != [] && LastHasLines(s.hunks[|s.hunks| - 1].chunks))
  }

  function ModeOf(hunk: Hunk, lineNumber: nat): Mode {
    match hunk
    case AddFile(_, _) => InAddFile
    case DeleteFile(_) => InDeleteFile
    case UpdateFile(_, _, _) => InUpdateFile(lineNumber)
  }

  function AfterHunk(s: State, hunk: Hunk, count: nat): State {
    At(s.(mode := ModeOf(hunk, s.lineNumber + 1)), hunk, count)
  }

  lemma ReadyIsNotEmpty(s: State)
    requires Ready(s)
    ensures CheckNotEmpty(Numbered(s)) == Ok(Numbered(s))
  {
  }

  lemma HeaderReads(s: State, line: string, hunk: Hunk)
    requires Ready(s) && Trim(line) == line && TrimEnd(line) == line
    requires match hunk
      case AddFile(path, contents) => HeaderOf(line, s.mode.StartedPatch?) == Add(path) && contents == ""
      case DeleteFile(path) => HeaderOf(line, s.mode.StartedPatch?) == Delete(path)
      case UpdateFile(path, movePath, chunks) =>
        HeaderOf(line, s.mode.StartedPatch?) == Update(path) && movePath == None && chunks == []
    ensures ReadsTo(s, [line], AfterHunk(s, hunk, 1))
  {
    hide HeaderOf, Trim, TrimEnd, ReadsTo, CheckNotEmpty;
    ReadyIsNotEmpty(s);
    ReadsLine(s, line, AfterHunk(s, hunk, 1));
  }

  lemma AddedLineAppends(s: State, path: string, contents: string, line: string)
    requires s.mode.InAddFile?
    ensures AfterBodyLine(At(s, AddFile(path, contents), 1), "+" + line)
            == Ok(At(s, AddFile(path, contents + line + "\n"), 1))
  {
    var before := At(s, AddFile(path, contents), 1);
    assert ("+" + line)[1..] == line;
    assert before.hunks[|before.hunks| - 1] == AddFile(path, contents) && before.hunks[..|before.hunks| - 1] == s.hunks;
  }

  lemma AddedLineReads(s: State, path: string, contents: string, line: string)
    requires s.mode.InAddFile?
    ensures ReadsTo(At(s, AddFile(path, contents), 0), ["+" + line], At(s, AddFile(path, contents + line + "\n"), 1))
  {
    hide ReadsTo, HeaderOf, MarkerOf, Trim, TrimEnd, NoLf, AfterBodyLine;
    var before, after := At(s, AddFile(path, contents), 0), At(s, AddFile(path, contents + line + "\n"), 1);
    DiffLineRead(Added(line));
    TrimKeepsPlus(line);
    PlainLine(Trim("+" + line), false);
    AddedLineAppends(s, path, contents, line);
    assert Numbered(before) == At(s, AddFile(path, contents), 1);
    ReadsLine(before, "+" + line, after);
  }

  lemma TrimKeepsPlus(line: string)
    ensures Trim("+" + line) != "" && Trim("+" + line)[0] == '+'
  {
    var printed := "+" + line;
    assert printed[0] == '+' && !IsWhitespace('+');
  }

  lemma {:induction false} AddedLinesRead(s: State, path: string, contents: string, lines: seq<string>)
    requires s.mode.InAddFile?
    ensures Builds(s, AddFile(path, contents), AddedLines(lines), AddFile(path, contents + LfText(lines)))
    decreases |lines|
  {
    if lines == [] {
      BuildsNothing(s, AddFile(path, contents));
      assert contents + "" == contents;
    } else {
      hide Builds;
      var next := contents + lines[0] + "\n";
      OneAddedLine(s, path, contents, lines[0]);
      AddedLinesRead(Later(s, 1), path, next, lines[1..]);
      TerminatedHead(contents, lines);
      BuildsConcat(s, AddFile(path, contents), ["+" + lines[0]], AddFile(path, next), AddedLines(lines[1..]),
                   AddFile(path, contents + LfText(lines)));
    }
  }

  lemma TerminatedHead(contents: string, lines: seq<string>)
    requires lines != []
    ensures contents + lines[0] + "\n" + LfText(lines[1..]) == contents + LfText(lines)
  {
    var rest := LfText(lines[1..]);
    assert LfText(lines) == lines[0] + "\n" + rest;
    hide LfText;
    Associative(contents, lines[0] + "\n", rest);
    Associative(contents, lines[0], "\n");
  }

  lemma OneAddedLine(s: State, path: string, contents: string, line: string)
    requires s.mode.InAddFile?
    ensures Builds(s, AddFile(path, contents), ["+" + line], AddFile(path, contents + line + "\n"))
  {
    hide ReadsTo, NoLf;
    AddedLineReads(s, path, contents, line);
  }

  lemma ContentsOfPieces(contents: string)
    requires SplitLf(contents)[|SplitLf(contents)| - 1] == ""
    ensures LfText(SplitLf(contents)[..|SplitLf(contents)| - 1]) == contents
  {
    hide SplitLf, JoinLf;
    var pieces := SplitLf(contents);
    JoinSplit(contents);
    JoinWithBlank(pieces[..|pieces| - 1]);
    assert pieces == pieces[..|pieces| - 1] + [""];
  }

  // ---------------------------------------------------------------- every hunk

  lemma AddFileReads(s: State, path: string, contents: string)
    requires Ready(s) && HunkWellFormed(AddFile(path, contents))
    ensures var lines := HunkLines(AddFile(path, contents));
      ReadsTo(s, lines, AfterHunk(s, AddFile(path, contents), |lines|))
  {
    hide ReadsTo, SplitLf, IsName, NoneHasLf, HeaderOf, Trim, TrimEnd, AddedLines, LfText, Ready;
    var hunk, texts := AddFile(path, contents), SplitLf(contents)[..|SplitLf(contents)| - 1];
    MarkerLine(ADD_FILE, path);
    AddHeader(path, s.mode.StartedPatch?);
    HeaderReads(s, ADD_FILE + path, AddFile(path, ""));
    ContentsOfPieces(contents);
    var inside := s.(mode := InAddFile, lineNumber := s.lineNumber + 1);
    AddedLinesRead(inside, path, "", texts);
    assert "" + LfText(texts) == contents;
    ReadsConcat(s, [ADD_FILE + path], AfterHunk(s, AddFile(path, ""), 1), AddedLines(texts),
                At(inside, hunk, |AddedLines(texts)|));
  }

  lemma DeleteFileReads(s: State, path: string)
    requires Ready(s) && IsName(path)
    ensures ReadsTo(s, [DELETE_FILE + path], AfterHunk(s, DeleteFile(path), 1))
  {
    hide ReadsTo, IsName, HeaderOf, Trim, TrimEnd, Ready;
    MarkerLine(DELETE_FILE, path);
    DeleteHeader(path, s.mode.StartedPatch?);
    HeaderReads(s, DELETE_FILE + path, DeleteFile(path));
  }

  lemma MoveReads(s: State, path: string, to: string)
    requires s.mode.InUpdateFile? && IsName(to)
    ensures Builds(s, UpdateFile(path, None, []), [MOVE_TO + to], UpdateFile(path, Some(to), []))
  {
    hide ReadsTo, IsName, HeaderOf, MarkerOf, Trim, TrimEnd;
    MarkerLine(MOVE_TO, to);
    MoveLine(to);
    assert AfterUpdateLine(UpdateFile(path, None, []), MOVE_TO + to, s.lineNumber + 1)
           == Ok(UpdateFile(path, Some(to), []));
    UpdatingLine(s, UpdateFile(path, None, []), MOVE_TO + to, UpdateFile(path, Some(to), []));
  }

  lemma UpdateBodyReads(s: State, hunk: Hunk)
    requires s.mode.InUpdateFile? && hunk.UpdateFile? && HunkWellFormed(hunk)
    ensures var move := if hunk.movePath.Some? then [MOVE_TO + hunk.movePath.value] else [];
      Builds(s, UpdateFile(hunk.path, None, []), move + ChunksLines(hunk.chunks), hunk)
  {
    hide Builds, IsName, ChunkWellFormed, ChunksLines;
    var blank, moved := UpdateFile(hunk.path, None, []), UpdateFile(hunk.path, hunk.movePath, []);
    var move := if hunk.movePath.Some? then [MOVE_TO + hunk.movePath.value] else [];
    if hunk.movePath.Some? {
      MoveReads(s, hunk.path, hunk.movePath.value);
    } else {
      BuildsNothing(s, blank);
    }
    ChunksRead(Later(s, |move|), moved, hunk.chunks);
    assert [] + hunk.chunks == hunk.chunks;
    BuildsConcat(s, blank, move, moved, ChunksLines(hunk.chunks), hunk);
  }

  lemma UpdateFileReads(s: State, hunk: Hunk)
    requires Ready(s) && hunk.UpdateFile? && HunkWellFormed(hunk)
    ensures var lines := HunkLines(hunk);
      ReadsTo(s, lines, AfterHunk(s, hunk, |lines|))
  {
    hide ReadsTo, IsName, HeaderOf, Trim, TrimEnd, ChunkWellFormed, ChunksLines, Ready;
    var blank := UpdateFile(hunk.path, None, []);
    var move := if hunk.movePath.Some? then [MOVE_TO + hunk.movePath.value] else [];
    var body := move + ChunksLines(hunk.chunks);
    MarkerLine(UPDATE_FILE, hunk.path);
    UpdateHeader(hunk.path, s.mode.StartedPatch?);
    HeaderReads(s, UPDATE_FILE + hunk.path, blank);
    var inside := s.(mode := InUpdateFile(s.lineNumber + 1), lineNumber := s.lineNumber + 1);
    UpdateBodyReads(inside, hunk);
    ReadsConcat(s, [UPDATE_FILE + hunk.path], AfterHunk(s, blank, 1), body, At(inside, hunk, |body|));
    Associative([UPDATE_FILE + hunk.path], move, ChunksLines(hunk.chunks));
  }

  lemma HunkReads(s: State, hunk: Hunk)
    requires Ready(s) && HunkWellFormed(hunk)
    ensures var lines := HunkLines(hunk);
      && ReadsTo(s, lines, AfterHunk(s, hunk, |lines|))
      && Ready(AfterHunk(s, hunk, |lines|))
  {
    hide ReadsTo, IsName, ChunkWellFormed;
    if hunk.UpdateFile? {
      assert ChunkWellFormed(hunk.chunks[|hunk.chunks| - 1]);
      PrintableHasLines(hunk.chunks[|hunk.chunks| - 1]);
      UpdateFileReads(s, hunk);
    } else if hunk.AddFile? {
      AddFileReads(s, hunk.path, hunk.contents);
    } else {
      DeleteFileReads(s, hunk.path);
    }
  }

  lemma PrintableHasLines(chunk: UpdateFileChunk)
    requires ChunkWellFormed(chunk)
    ensures !chunk.IsEmpty()
  {
  }

  /** The lines add the hunks and nothing else, up to where the next header may come. */
  ghost predicate Adds(s: State, lines: seq<string>, hunks: seq<Hunk>, t: State) {
    ReadsTo(s, lines, t) && Ready(t) && t.hunks == s.hunks + hunks && t.environmentId == s.environmentId
  }

  lemma AddsConcat(s: State, a: seq<string>, hunk: Hunk, t: State, b: seq<string>, hunks: seq<Hunk>, u: State)
    requires Adds(s, a, [hunk], t) && Adds(t, b, hunks, u)
    ensures Adds(s, a + b, [hunk] + hunks, u)
  {
    hide ReadsTo, Ready;
    ReadsConcat(s, a, t, b, u);
    Associative(s.hunks, [hunk], hunks);
  }

  lemma {:induction false} HunksRead(s: State, hunks: seq<Hunk>) returns (t: State)
    requires Ready(s) && AllWellFormed(hunks)
    ensures Adds(s, HunksLines(hunks), hunks, t)
    decreases |hunks|
  {
    if hunks == [] {
      t := s;
      assert s.hunks + hunks == s.hunks;
    } else {
      var hunk, rest := hunks[0], hunks[1..];
      assert HunkWellFormed(hunk) && AllWellFormed(rest) && HunksLines(hunks) == HunkLines(hunk) + HunksLines(rest);
      assert [hunk] + rest == hunks;
      var next := AfterHunk(s, hunk, |HunkLines(hunk)|);
      hide ReadsTo, Ready, HunkWellFormed, AllWellFormed, HunkLines, HunksLines;
      HunkReads(s, hunk);
      assert Adds(s, HunkLines(hunk), [hunk], next);
      hide Adds, AfterHunk;
      t := HunksRead(next, rest) by {
        assert Ready(next) by { HunkReads(s, hunk); }
      }
      AddsConcat(s, HunkLines(hunk), hunk, next, HunksLines(rest), rest, t);
    }
  }

  // ---------------------------------------------------------------- printed lines hold no line feed

  lemma NameHasNoLf(name: string)
    requires IsName(name)
    ensures NoLf(name)
  {
  }

  lemma MarkedHasNoLf(marker: string, text: string)
    requires marker != "" && NoLf(marker) && NoLf(text)
    ensures NoLf(marker + text)
  {
  }

  lemma MarkersHaveNoLf()
    ensures NoLf(BEGIN_PATCH) && NoLf(END_PATCH) && NoLf(END_OF_FILE)
    ensures NoLf(ADD_FILE) && NoLf(DELETE_FILE) && NoLf(UPDATE_FILE) && NoLf(MOVE_TO)
    ensures NoLf(EMPTY_CHANGE_CONTEXT) && NoLf(CHANGE_CONTEXT) && NoLf(ENVIRONMENT_ID + " ")
  {
  }

  lemma NoLfConcat(a: seq<string>, b: seq<string>)
    requires NoneHasLf(a) && NoneHasLf(b)
    ensures NoneHasLf(a + b)
  {
    hide NoLf;
  }

  lemma OneHasNoLf(line: string)
    requires NoLf(line)
    ensures NoneHasLf([line])
  {
    hide NoLf;
  }

  lemma {:induction false} PrintedHaveNoLf(lines: seq<DiffLine>)
    requires DiffHasNoLf(lines)
    ensures NoneHasLf(PrintedLines(lines))
  {
    if lines != [] {
      MarkedHasNoLf(" ", lines[0].text);
      MarkedHasNoLf("-", lines[0].text);
      MarkedHasNoLf("+", lines[0].text);
      hide NoLf;
      PrintedHaveNoLf(lines[1..]);
    }
  }

  lemma {:induction false} AddedHaveNoLf(lines: seq<string>)
    requires NoneHasLf(lines)
    ensures NoneHasLf(AddedLines(lines))
  {
    if lines != [] {
      MarkedHasNoLf("+", lines[0]);
      hide NoLf;
      AddedHaveNoLf(lines[1..]);
    }
  }

  lemma ChunkHasNoLf(chunk: UpdateFileChunk)
    requires ChunkWellFormed(chunk)
    ensures NoneHasLf(ChunkLines(chunk))
  {
    hide NoLf, IsName, DiffOf, PrintedLines, UpdateFileChunk.ContextOk, NoneHasLf;
    MarkersHaveNoLf();
    if chunk.changeContext.Some? {
      NameHasNoLf(chunk.changeContext.value);
      MarkedHasNoLf(CHANGE_CONTEXT, chunk.changeContext.value);
    }
    var head, diff := [ContextLine(chunk.changeContext)], PrintedLines(DiffOf(chunk));
    OneHasNoLf(ContextLine(chunk.changeContext));
    DiffOfHasNoLf(chunk);
    PrintedHaveNoLf(DiffOf(chunk));
    NoLfConcat(head, diff);
    if chunk.isEndOfFile {
      OneHasNoLf(END_OF_FILE);
      NoLfConcat(head + diff, [END_OF_FILE]);
    } else {
      assert head + diff + [] == head + diff;
    }
  }

  lemma DiffOfHasNoLf(chunk: UpdateFileChunk)
    requires NoneHasLf(chunk.oldLines) && NoneHasLf(chunk.newLines)
    ensures DiffHasNoLf(DiffOf(chunk))
  {
    hide NoneHasLf, DiffHasNoLf, DiffFrom;
    DiffFromHasNoLf(chunk.oldLines, chunk.newLines, chunk.contextLineIndices, 0, 0);
  }

  lemma {:induction false} ChunksHaveNoLf(chunks: seq<UpdateFileChunk>)
    requires forall i :: 0 <= i < |chunks| ==> ChunkWellFormed(chunks[i])
    ensures NoneHasLf(ChunksLines(chunks))
  {
    hide ChunkLines, ChunkWellFormed, NoLf;
    if chunks != [] {
      ChunkHasNoLf(chunks[0]);
      ChunksHaveNoLf(chunks[1..]);
      NoLfConcat(ChunkLines(chunks[0]), ChunksLines(chunks[1..]));
    }
  }

  lemma NamedHasNoLf(marker: string, name: string)
    requires marker != "" && NoLf(marker) && IsName(name)
    ensures NoneHasLf([marker + name])
  {
    NameHasNoLf(name);
    MarkedHasNoLf(marker, name);
  }

  lemma PiecesHaveNoLf(contents: string)
    ensures NoneHasLf(SplitLf(contents))
    ensures NoneHasLf(SplitLf(contents)[..|SplitLf(contents)| - 1])
  {
    JoinSplit(contents);
    hide SplitLf, NoLf;
  }

  lemma HunkHasNoLf(hunk: Hunk)
    requires HunkWellFormed(hunk)
    ensures NoneHasLf(HunkLines(hunk))
  {
    hide NoLf, IsName, NoneHasLf, ChunksLines, AddedLines, ChunkWellFormed, SplitLf;
    MarkersHaveNoLf();
    match hunk {
      case AddFile(path, contents) =>
        var texts := SplitLf(contents)[..|SplitLf(contents)| - 1];
        NamedHasNoLf(ADD_FILE, path);
        PiecesHaveNoLf(contents);
        AddedHaveNoLf(texts);
        NoLfConcat([ADD_FILE + path], AddedLines(texts));
      case DeleteFile(path) =>
        NamedHasNoLf(DELETE_FILE, path);
      case UpdateFile(path, movePath, chunks) =>
        NamedHasNoLf(UPDATE_FILE, path);
        ChunksHaveNoLf(chunks);
        var head := [UPDATE_FILE + path];
        if movePath.Some? {
          NamedHasNoLf(MOVE_TO, movePath.value);
          NoLfConcat(head, [MOVE_TO + movePath.value]);
          NoLfConcat(head + [MOVE_TO + movePath.value], ChunksLines(chunks));
        } else {
          assert head + [] == head;
          NoLfConcat(head, ChunksLines(chunks));
        }
    }
  }

  lemma {:induction false} HunksHaveNoLf(hunks: seq<Hunk>)
    requires AllWellFormed(hunks)
    ensures NoneHasLf(HunksLines(hunks))
  {
    hide HunkLines, HunkWellFormed, NoLf;
    if hunks != [] {
      HunkHasNoLf(hunks[0]);
      HunksHaveNoLf(hunks[1..]);
      NoLfConcat(HunkLines(hunks[0]), HunksLines(hunks[1..]));
    }
  }

  // ---------------------------------------------------------------- the lines before the end marker

  lemma IdLine(id: string)
    requires IsName(id) && !IsWhitespace(id[0])
    ensures var line := ENVIRONMENT_ID + " " + id;
      && Trim(line) == line
      && HeaderOf(line, true) == EnvironmentId(" " + id) && Trim(" " + id) == id
  {
    var line := ENVIRONMENT_ID + " " + id;
    assert line[|ENVIRONMENT_ID|..] == " " + id;
    assert HeaderOf(line, true) == EnvironmentId(" " + id);
    hide HeaderOf, NoLf;
    IdTrims(id);
    assert line == (ENVIRONMENT_ID + " ") + id && (ENVIRONMENT_ID + " ")[0] == '*';
    MarkerLine(ENVIRONMENT_ID + " ", id);
  }

  lemma IdTrims(id: string)
    requires IsName(id) && !IsWhitespace(id[0])
    ensures Trim(" " + id) == id
  {
    hide TrimEnd, NoLf;
    var padded := " " + id;
    assert padded[|padded| - 1] == id[|id| - 1] && padded[1..] == id;
    TrimEndKeeps(padded);
    assert padded[0] == ' ' && TrimStart(padded) == TrimStart(id);
    assert TrimStart(id) == id;
  }

  lemma BeginReads()
    ensures ReadsTo(START, [BEGIN_PATCH], Numbered(START).(mode := StartedPatch))
  {
    hide ReadsTo;
    var line := BEGIN_PATCH;
    assert line[0] == '*' && line[|line| - 1] == 'h';
    TrimKeeps(line);
    hide TrimEnd, TrimStart;
    ReadsLine(START, line, Numbered(START).(mode := StartedPatch));
  }

  lemma IdReads(s: State, environmentId: Option<string>)
    requires s.mode.StartedPatch? && s.environmentId == None && IdPrintable(environmentId)
    ensures ReadsTo(s, IdLines(environmentId),
                    s.(environmentId := environmentId, lineNumber := s.lineNumber + |IdLines(environmentId)|))
  {
    hide IsName, IsWhitespace;
    if environmentId.Some? {
      hide ReadsTo;
      OneIdReads(s, environmentId.value);
    }
  }

  lemma HeaderLine(s: State, line: string, next: State)
    requires s.mode.StartedPatch? && Trim(line) == line && AfterHeader(s, line) == Ok(Some(next))
    ensures AfterLine(s, line) == Ok(next)
  {
    hide AfterHeader, AfterBodyLine, Trim, TrimEnd;
  }

  lemma IdHeader(s: State, line: string, text: string)
    requires s.mode.StartedPatch? && s.environmentId == None && Trim(text) != ""
    requires HeaderOf(line, true) == EnvironmentId(text)
    ensures AfterHeader(s, line) == Ok(Some(s.(environmentId := Some(Trim(text)))))
  {
    hide HeaderOf, Trim, CheckNotEmpty;
  }

  lemma OneIdReads(s: State, id: string)
    requires s.mode.StartedPatch? && s.environmentId == None && IsName(id) && !IsWhitespace(id[0])
    ensures ReadsTo(s, [ENVIRONMENT_ID + " " + id], Numbered(s).(environmentId := Some(id)))
  {
    assert id != "" && Numbered(s).mode.StartedPatch? && Numbered(s).environmentId == None;
    hide *;
    IdLine(id);
    IdHeader(Numbered(s), ENVIRONMENT_ID + " " + id, " " + id);
    HeaderLine(Numbered(s), ENVIRONMENT_ID + " " + id, Numbered(s).(environmentId := Some(id)));
    ReadsLine(s, ENVIRONMENT_ID + " " + id, Numbered(s).(environmentId := Some(id)));
  }

  /** Everything before the end marker is read, up to where that marker may come. */
  lemma BodyReads(hunks: seq<Hunk>, environmentId: Option<string>) returns (t: State)
    requires AllWellFormed(hunks) && IdPrintable(environmentId)
    ensures ReadsTo(START, PatchBody(hunks, environmentId), t) && Ready(t)
    ensures t.hunks == hunks && t.environmentId == environmentId
  {
    hide ReadsTo, IdLines, HunksLines, HunkWellFormed, IsName;
    BeginReads();
    var started := Numbered(START).(mode := StartedPatch);
    IdReads(started, environmentId);
    var s := started.(environmentId := environmentId, lineNumber := 1 + |IdLines(environmentId)|);
    ReadsConcat(START, [BEGIN_PATCH], started, IdLines(environmentId), s);
    t := HunksRead(s, hunks);
    ReadsConcat(START, [BEGIN_PATCH] + IdLines(environmentId), s, HunksLines(hunks), t);
    assert [] + hunks == hunks;
  }

  lemma BodyHasNoLf(hunks: seq<Hunk>, environmentId: Option<string>)
    requires AllWellFormed(hunks) && IdPrintable(environmentId)
    ensures NoneHasLf(PatchBody(hunks, environmentId))
  {
    hide NoLf, IsName, NoneHasLf, HunksLines;
    MarkersHaveNoLf();
    OneHasNoLf(BEGIN_PATCH);
    HunksHaveNoLf(hunks);
    IdHasNoLf(environmentId);
    NoLfConcat([BEGIN_PATCH], IdLines(environmentId));
    NoLfConcat([BEGIN_PATCH] + IdLines(environmentId), HunksLines(hunks));
  }

  lemma IdHasNoLf(environmentId: Option<string>)
    requires IdPrintable(environmentId)
    ensures NoneHasLf(IdLines(environmentId))
  {
    if environmentId.Some? {
      MarkersHaveNoLf();
      hide NoLf, IsName;
      NamedHasNoLf(ENVIRONMENT_ID + " ", environmentId.value);
    }
  }
}
