/** Parsing a printed patch: the text loses two trailing CRs on every line, and is the same hunks
    again exactly when no line text ends in one. */
module PrintRoundTrip {
  import opened Text
  import opened Patch
  import opened StreamingParser
  import ParserRuns
  import opened PatchText
  import opened PatchPrinter

  // ---------------------------------------------------------------- hunks without final CRs

  function StripChunk(chunk: UpdateFileChunk): UpdateFileChunk {
    chunk.(oldLines := StripCrs(chunk.oldLines), newLines := StripCrs(chunk.newLines))
  }

  function StripChunks(chunks: seq<UpdateFileChunk>): seq<UpdateFileChunk> {
    if chunks == [] then [] else [StripChunk(chunks[0])] + StripChunks(chunks[1..])
  }

  function StripHunk(hunk: Hunk): Hunk {
    match hunk
    case AddFile(path, contents) =>
      var pieces := SplitLf(contents);
      AddFile(path, LfText(StripCrs(pieces[..|pieces| - 1])))
    case DeleteFile(_) => hunk
    case UpdateFile(_, _, chunks) => hunk.(chunks := StripChunks(chunks))
  }

  function StripHunks(hunks: seq<Hunk>): seq<Hunk> {
    if hunks == [] then [] else [StripHunk(hunks[0])] + StripHunks(hunks[1..])
  }

  /** No text a line of the patch stands for ends in a CR. */
  predicate NoFinalCr(lines: seq<string>) {
    StripCrs(lines) == lines
  }

  ghost predicate HunkHasNoCr(hunk: Hunk) {
    match hunk
    case AddFile(_, contents) =>
      var pieces := SplitLf(contents);
      NoFinalCr(pieces[..|pieces| - 1])
    case DeleteFile(_) => true
    case UpdateFile(_, _, chunks) =>
      forall i :: 0 <= i < |chunks| ==> NoFinalCr(chunks[i].oldLines) && NoFinalCr(chunks[i].newLines)
  }

  ghost predicate NoneHasCr(hunks: seq<Hunk>) {
    forall i :: 0 <= i < |hunks| ==> HunkHasNoCr(hunks[i])
  }

  lemma {:induction false} StripCrsAt(lines: seq<string>)
    ensures |StripCrs(lines)| == |lines|
    ensures forall i :: 0 <= i < |lines| ==> StripCrs(lines)[i] == StripCr(lines[i])
  {
    hide StripCr;
    if lines != [] {
      StripCrsAt(lines[1..]);
    }
  }

  lemma StripLength(lines: seq<string>)
    ensures |StripCrs(lines)| == |lines|
  {
    StripCrsAt(lines);
  }

  lemma StripAt(lines: seq<string>, i: nat)
    requires i < |lines| == |StripCrs(lines)|
    ensures StripCrs(lines)[i] == StripCr(lines[i])
  {
    StripCrsAt(lines);
  }

  lemma StripTwice(line: string)
    ensures StripCr(StripCr(line)) == line <==> StripCr(line) == line
  {
  }

  lemma StripsTwice(lines: seq<string>)
    ensures StripCrs(StripCrs(lines)) == lines <==> NoFinalCr(lines)
  {
    StripCrsAt(lines);
    StripCrsAt(StripCrs(lines));
    forall i | 0 <= i < |lines|
      ensures StripCr(StripCr(lines[i])) == lines[i] <==> StripCr(lines[i]) == lines[i]
    {
      StripTwice(lines[i]);
    }
    hide StripCr;
    if StripCrs(StripCrs(lines)) == lines {
      forall i | 0 <= i < |lines|
        ensures StripCrs(lines)[i] == lines[i]
      {
        assert StripCrs(StripCrs(lines))[i] == lines[i];
      }
    }
  }

  lemma StripHasNoLf(lines: seq<string>)
    requires NoneHasLf(lines)
    ensures NoneHasLf(StripCrs(lines))
  {
    StripCrsAt(lines);
    forall i | 0 <= i < |lines|
      ensures NoLf(StripCrs(lines)[i])
    {
      assert NoLf(lines[i]);
    }
  }

  // ---------------------------------------------------------------- stripping keeps what can be printed

  lemma {:induction false} StripChunksAt(chunks: seq<UpdateFileChunk>)
    ensures |StripChunks(chunks)| == |chunks|
    ensures forall i :: 0 <= i < |chunks| ==> StripChunks(chunks)[i] == StripChunk(chunks[i])
  {
    hide StripChunk;
    if chunks != [] {
      StripChunksAt(chunks[1..]);
    }
  }

  lemma StripChunkWellFormed(chunk: UpdateFileChunk)
    requires ChunkWellFormed(chunk)
    ensures ChunkWellFormed(StripChunk(chunk))
  {
    StripCrsAt(chunk.oldLines);
    StripCrsAt(chunk.newLines);
    StripHasNoLf(chunk.oldLines);
    StripHasNoLf(chunk.newLines);
    hide StripCr, StripCrs, NoneHasLf, IsName, Increasing;
  }

  lemma {:induction false} SplitOfLfText(lines: seq<string>)
    requires NoneHasLf(lines)
    ensures SplitLf(LfText(lines)) == lines + [""]
  {
    JoinWithBlank(lines);
    assert NoLf("");
    hide SplitLf, JoinLf, LfText;
    SplitJoin(lines + [""]);
  }

  lemma StripAddFile(path: string, contents: string)
    ensures var pieces := SplitLf(contents);
      var stripped := StripCrs(pieces[..|pieces| - 1]);
      && StripHunk(AddFile(path, contents)) == AddFile(path, LfText(stripped))
      && SplitLf(LfText(stripped)) == stripped + [""]
      && (stripped + [""])[..|stripped|] == stripped
  {
    hide SplitLf, LfText, StripCrs, NoneHasLf;
    PiecesHaveNoLf(contents);
    var pieces := SplitLf(contents);
    StripHasNoLf(pieces[..|pieces| - 1]);
    SplitOfLfText(StripCrs(pieces[..|pieces| - 1]));
  }

  lemma StripHunkWellFormed(hunk: Hunk)
    requires HunkWellFormed(hunk)
    ensures HunkWellFormed(StripHunk(hunk))
  {
    hide IsName, ChunkWellFormed, StripCrs, LfText, SplitLf, StripChunk, StripChunks;
    if hunk.AddFile? {
      StripAddFile(hunk.path, hunk.contents);
    } else if hunk.UpdateFile? {
      StripChunksAt(hunk.chunks);
      forall i | 0 <= i < |hunk.chunks|
        ensures ChunkWellFormed(StripChunks(hunk.chunks)[i])
      {
        StripChunkWellFormed(hunk.chunks[i]);
      }
    }
  }

  lemma {:induction false} StripHunksAt(hunks: seq<Hunk>)
    ensures |StripHunks(hunks)| == |hunks|
    ensures forall i :: 0 <= i < |hunks| ==> StripHunks(hunks)[i] == StripHunk(hunks[i])
  {
    hide StripHunk;
    if hunks != [] {
      StripHunksAt(hunks[1..]);
    }
  }

  lemma StripHunksWellFormed(hunks: seq<Hunk>)
    requires AllWellFormed(hunks)
    ensures AllWellFormed(StripHunks(hunks))
  {
    hide HunkWellFormed, StripHunk, StripHunks;
    StripHunksAt(hunks);
    forall i | 0 <= i < |hunks|
      ensures HunkWellFormed(StripHunks(hunks)[i])
    {
      StripHunkWellFormed(hunks[i]);
    }
  }

  // ---------------------------------------------------------------- stripping printed lines

  lemma StripMarked(marker: string, text: string)
    requires marker != "" && marker[|marker| - 1] != '\r'
    ensures StripCr(marker + text) == marker + StripCr(text)
  {
    var line := marker + text;
    if text == "" {
      assert line == marker;
    } else if text[|text| - 1] == '\r' {
      assert line[..|line| - 1] == marker + text[..|text| - 1];
    }
  }

  lemma StripName(marker: string, name: string)
    requires IsName(name)
    ensures StripCr(marker + name) == marker + name
  {
    assert (marker + name)[|marker + name| - 1] == name[|name| - 1];
  }

  function StripLine(line: DiffLine): DiffLine {
    match line
    case Kept(text) => Kept(StripCr(text))
    case Removed(text) => Removed(StripCr(text))
    case Added(text) => Added(StripCr(text))
  }

  function StripLines(lines: seq<DiffLine>): seq<DiffLine> {
    if lines == [] then [] else [StripLine(lines[0])] + StripLines(lines[1..])
  }

  lemma StripPrinted(line: DiffLine)
    ensures StripCr(line.Printed()) == StripLine(line).Printed()
  {
    hide StripCr;
    StripMarked(" ", line.text);
    StripMarked("-", line.text);
    StripMarked("+", line.text);
  }

  lemma {:induction false} StripPrintedLines(lines: seq<DiffLine>)
    ensures StripCrs(PrintedLines(lines)) == PrintedLines(StripLines(lines))
  {
    if lines != [] {
      StripPrinted(lines[0]);
      hide StripCr, StripLine, DiffLine.Printed;
      StripPrintedLines(lines[1..]);
      assert ([lines[0].Printed()] + PrintedLines(lines[1..]))[1..] == PrintedLines(lines[1..]);
      assert ([StripLine(lines[0])] + StripLines(lines[1..]))[1..] == StripLines(lines[1..]);
    }
  }

  lemma {:induction false} StripDiffFrom(oldLines: seq<string>, newLines: seq<string>, context: seq<(nat, nat)>,
                                         i: nat, j: nat)
    requires i <= |oldLines| && j <= |newLines|
    ensures |StripCrs(oldLines)| == |oldLines| && |StripCrs(newLines)| == |newLines|
    ensures StripLines(DiffFrom(oldLines, newLines, context, i, j))
            == DiffFrom(StripCrs(oldLines), StripCrs(newLines), context, i, j)
    decreases |oldLines| - i + |newLines| - j
  {
    hide StripCr, StripCrs, StripLines;
    StripLength(oldLines);
    StripLength(newLines);
    if i < |oldLines| {
      StripAt(oldLines, i);
    }
    if j < |newLines| {
      StripAt(newLines, j);
    }
    if i < |oldLines| && (context == [] || i < context[0].0) {
      StripDiffFrom(oldLines, newLines, context, i + 1, j);
      StripLinesHead(Removed(oldLines[i]), DiffFrom(oldLines, newLines, context, i + 1, j));
    } else if j < |newLines| && (context == [] || j < context[0].1) {
      StripDiffFrom(oldLines, newLines, context, i, j + 1);
      StripLinesHead(Added(newLines[j]), DiffFrom(oldLines, newLines, context, i, j + 1));
    } else if i < |oldLines| && j < |newLines| {
      StripDiffFrom(oldLines, newLines, context[1..], i + 1, j + 1);
      StripLinesHead(Kept(oldLines[i]), DiffFrom(oldLines, newLines, context[1..], i + 1, j + 1));
    } else {
      NoStripLines();
    }
  }

  lemma NoStripLines()
    ensures StripLines([]) == []
  {
  }

  lemma StripLinesHead(line: DiffLine, rest: seq<DiffLine>)
    ensures StripLines([line] + rest) == [StripLine(line)] + StripLines(rest)
  {
    hide StripLine;
    assert ([line] + rest)[1..] == rest;
  }

  lemma StripOne(line: string)
    ensures StripCrs([line]) == [StripCr(line)]
  {
    hide StripCr;
    assert [line][1..] == [];
  }

  lemma StripContextLine(context: Option<string>)
    requires context.Some? ==> IsName(context.value)
    ensures StripCr(ContextLine(context)) == ContextLine(context)
  {
    if context.Some? {
      StripName(CHANGE_CONTEXT, context.value);
    }
  }

  lemma StripChunkLines(chunk: UpdateFileChunk)
    requires ChunkWellFormed(chunk)
    ensures StripCrs(ChunkLines(chunk)) == ChunkLines(StripChunk(chunk))
  {
    hide StripCr, StripCrs, ContextLine, PrintedLines, DiffFrom, StripLines, IsName, NoneHasLf,
         UpdateFileChunk.ContextOk;
    StripContextLine(chunk.changeContext);
    StripOne(ContextLine(chunk.changeContext));
    StripDiffFrom(chunk.oldLines, chunk.newLines, chunk.contextLineIndices, 0, 0);
    StripPrintedLines(DiffOf(chunk));
    var head, body := [ContextLine(chunk.changeContext)], PrintedLines(DiffOf(chunk));
    var end := if chunk.isEndOfFile then [END_OF_FILE] else [];
    EndStrips(chunk.isEndOfFile);
    StripCrsConcat(head + body, end);
    StripCrsConcat(head, body);
  }

  lemma EndStrips(isEndOfFile: bool)
    ensures var end := if isEndOfFile then [END_OF_FILE] else [];
      StripCrs(end) == end
  {
    assert END_OF_FILE[|END_OF_FILE| - 1] == 'e';
    StripOne(END_OF_FILE);
  }

  lemma {:induction false} StripChunksLines(chunks: seq<UpdateFileChunk>)
    requires forall i :: 0 <= i < |chunks| ==> ChunkWellFormed(chunks[i])
    ensures StripCrs(ChunksLines(chunks)) == ChunksLines(StripChunks(chunks))
  {
    hide StripCr, StripCrs, ChunkLines, StripChunk, ChunkWellFormed;
    if chunks == [] {
      StripNone();
    } else {
      StripChunkLines(chunks[0]);
      StripChunksLines(chunks[1..]);
      StripCrsConcat(ChunkLines(chunks[0]), ChunksLines(chunks[1..]));
      assert ([StripChunk(chunks[0])] + StripChunks(chunks[1..]))[1..] == StripChunks(chunks[1..]);
    }
  }

  lemma StripNone()
    ensures StripCrs([]) == []
  {
  }

  lemma {:induction false} StripAddedLines(lines: seq<string>)
    ensures StripCrs(AddedLines(lines)) == AddedLines(StripCrs(lines))
  {
    if lines != [] {
      StripMarked("+", lines[0]);
      hide StripCr;
      StripAddedLines(lines[1..]);
      assert (["+" + lines[0]] + AddedLines(lines[1..]))[1..] == AddedLines(lines[1..]);
      assert ([StripCr(lines[0])] + StripCrs(lines[1..]))[1..] == StripCrs(lines[1..]);
    }
  }

  lemma StripNamed(marker: string, name: string)
    requires IsName(name)
    ensures StripCrs([marker + name]) == [marker + name]
  {
    hide StripCr, IsName;
    StripName(marker, name);
    StripOne(marker + name);
  }

  lemma StripHunkLines(hunk: Hunk)
    requires HunkWellFormed(hunk)
    ensures StripCrs(HunkLines(hunk)) == HunkLines(StripHunk(hunk))
  {
    hide StripCrs, IsName, ChunkWellFormed, ChunksLines, AddedLines, SplitLf, LfText, StripChunks;
    match hunk {
      case AddFile(path, contents) =>
        var texts := SplitLf(contents)[..|SplitLf(contents)| - 1];
        StripNamed(ADD_FILE, path);
        StripAddedLines(texts);
        StripCrsConcat([ADD_FILE + path], AddedLines(texts));
        StripAddFile(path, contents);
      case DeleteFile(path) => StripNamed(DELETE_FILE, path);
      case UpdateFile(path, movePath, chunks) =>
        var move := if movePath.Some? then [MOVE_TO + movePath.value] else [];
        StripNamed(UPDATE_FILE, path);
        if movePath.Some? {
          StripNamed(MOVE_TO, movePath.value);
        } else {
          StripNone();
        }
        StripChunksLines(chunks);
        StripCrsConcat([UPDATE_FILE + path], move);
        StripCrsConcat([UPDATE_FILE + path] + move, ChunksLines(chunks));
    }
  }

  lemma {:induction false} StripHunksLines(hunks: seq<Hunk>)
    requires AllWellFormed(hunks)
    ensures StripCrs(HunksLines(hunks)) == HunksLines(StripHunks(hunks))
  {
    hide StripCrs, HunkLines, StripHunk, HunkWellFormed;
    if hunks == [] {
      StripNone();
    } else {
      assert AllWellFormed(hunks[1..]);
      StripHunkLines(hunks[0]);
      StripHunksLines(hunks[1..]);
      StripCrsConcat(HunkLines(hunks[0]), HunksLines(hunks[1..]));
      assert ([StripHunk(hunks[0])] + StripHunks(hunks[1..]))[1..] == StripHunks(hunks[1..]);
    }
  }

  lemma BeginStrips()
    ensures StripCrs([BEGIN_PATCH]) == [BEGIN_PATCH]
  {
    assert BEGIN_PATCH[|BEGIN_PATCH| - 1] == 'h';
    StripOne(BEGIN_PATCH);
  }

  lemma IdStrips(environmentId: Option<string>)
    requires IdPrintable(environmentId)
    ensures StripCrs(IdLines(environmentId)) == IdLines(environmentId)
  {
    if environmentId.Some? {
      hide StripCrs;
      StripNamed(ENVIRONMENT_ID + " ", environmentId.value);
    }
  }

  /** Stripping the printed lines is printing the stripped hunks. */
  lemma StripBody(hunks: seq<Hunk>, environmentId: Option<string>)
    requires AllWellFormed(hunks) && IdPrintable(environmentId)
    ensures StripCrs(PatchBody(hunks, environmentId)) == PatchBody(StripHunks(hunks), environmentId)
  {
    hide StripCrs, IdLines, HunksLines, StripHunks, AllWellFormed;
    BeginStrips();
    IdStrips(environmentId);
    StripHunksLines(hunks);
    StripCrsConcat([BEGIN_PATCH], IdLines(environmentId));
    StripCrsConcat([BEGIN_PATCH] + IdLines(environmentId), HunksLines(hunks));
  }

  // ---------------------------------------------------------------- the printed text

  /** Splitting joined lines at their breaks gives the lines, the last one as it stands. */
  lemma LinesOfJoined(front: seq<string>, last: string)
    requires NoneHasLf(front) && NoLf(last) && last != ""
    ensures SplitLf(JoinLf(front + [last])) == front + [last]
    ensures Lines(JoinLf(front + [last])) == StripCrs(front) + [last]
  {
    var lines := front + [last];
    assert forall i :: 0 <= i < |lines| ==> NoLf(lines[i]) by {
      hide NoLf;
    }
    hide SplitLf, JoinLf, StripCrs, NoLf;
    SplitJoin(lines);
    assert lines[..|lines| - 1] == front;
  }

  lemma {:induction false} JoinedEnds(lines: seq<string>)
    requires lines != [] && lines[0] != "" && lines[|lines| - 1] != ""
    ensures var s, last := JoinLf(lines), lines[|lines| - 1];
      s != "" && s[0] == lines[0][0] && s[|s| - 1] == last[|last| - 1]
  {
    LastOfJoin(lines);
  }

  lemma MarkedTextIsTrimmed(lines: seq<string>)
    requires lines != [] && lines[0] == BEGIN_PATCH && lines[|lines| - 1] == END_PATCH
    ensures Trim(JoinLf(lines)) == JoinLf(lines)
    ensures StrictBoundaries(lines) == Ok(lines)
  {
    hide JoinLf, Trim;
    JoinedEnds(lines);
    MarkersAreTrimmed();
    TrimKeeps(JoinLf(lines));
  }

  lemma EndReads(t: State)
    requires Ready(t)
    ensures Finished(Snapshot(END_PATCH, t)) == Fed(Snapshot("", Numbered(t).(mode := EndedPatch)), None)
  {
    hide Trim, CheckNotEmpty;
    MarkersAreTrimmed();
    ReadyIsNotEmpty(t);
  }

  /** The print's own boundaries are found, one CR taken off every line. */
  lemma PrintedBoundaries(hunks: seq<Hunk>, environmentId: Option<string>, mode: ParseMode)
    requires AllWellFormed(hunks) && IdPrintable(environmentId)
    ensures Boundaries(Lines(Trim(Print(hunks, environmentId))), mode)
            == Ok(PatchBody(StripHunks(hunks), environmentId) + [END_PATCH])
  {
    var body := PatchBody(hunks, environmentId);
    var stripped := PatchBody(StripHunks(hunks), environmentId);
    assert (body + [END_PATCH])[0] == BEGIN_PATCH && (stripped + [END_PATCH])[0] == BEGIN_PATCH;
    hide PatchBody, Lines, JoinLf, Trim, StripCrs, StripHunks, AllWellFormed, IdPrintable, StrictBoundaries, NoneHasLf,
         NoLf;
    BodyHasNoLf(hunks, environmentId);
    StripBody(hunks, environmentId);
    MarkedTextIsTrimmed(body + [END_PATCH]);
    MarkedTextIsTrimmed(stripped + [END_PATCH]);
    MarkersHaveNoLf();
    LinesOfJoined(body, END_PATCH);
  }

  /** Streaming printed lines gives the hunks, another CR taken off every line. */
  lemma PrintedStreams(hunks: seq<Hunk>, environmentId: Option<string>)
    requires AllWellFormed(hunks) && IdPrintable(environmentId)
    ensures var lines := PatchBody(hunks, environmentId) + [END_PATCH];
      Streamed(lines) == Ok(ParsedPatch(StripHunks(hunks), JoinLf(lines), environmentId))
  {
    hide PatchBody, SplitLf, JoinLf, StripCrs, Feed, ParserRuns.FeedLines, Finished, NoLf, AllWellFormed, IdPrintable,
         Ready, StripHunks, NoneHasLf;
    var body := PatchBody(hunks, environmentId);
    var lines := body + [END_PATCH];
    assert lines[..|lines| - 1] == body;
    BodyHasNoLf(hunks, environmentId);
    MarkersHaveNoLf();
    LinesOfJoined(body, END_PATCH);
    ParserRuns.PushIsLineFold(START, JoinLf(lines));
    StripBody(hunks, environmentId);
    StripHunksWellFormed(hunks);
    var t := BodyReads(StripHunks(hunks), environmentId);
    EndReads(t);
  }

  /** Parsing the print of any well-formed hunks gives these hunks, with up to two CRs taken off the
      end of every line text, and everything else as it was: paths, move targets, contexts, context
      index pairs, end-of-file flags, environment id. */
  lemma PrintParseStrips(hunks: seq<Hunk>, environmentId: Option<string>, mode: ParseMode)
    requires AllWellFormed(hunks) && IdPrintable(environmentId)
    ensures var once := StripHunks(hunks);
      Parsed(Print(hunks, environmentId), mode)
        == Ok(ParsedPatch(StripHunks(once), Print(once, environmentId), environmentId))
  {
    hide PatchBody, Lines, JoinLf, Trim, Streamed, Boundaries, AllWellFormed, IdPrintable, StripHunks;
    PrintedBoundaries(hunks, environmentId, mode);
    StripHunksWellFormed(hunks);
    PrintedStreams(StripHunks(hunks), environmentId);
  }

  // ---------------------------------------------------------------- the round trip

  lemma StripsChunk(chunk: UpdateFileChunk)
    ensures StripChunk(StripChunk(chunk)) == chunk <==> NoFinalCr(chunk.oldLines) && NoFinalCr(chunk.newLines)
    ensures NoFinalCr(chunk.oldLines) && NoFinalCr(chunk.newLines) ==> StripChunk(chunk) == chunk
  {
    hide StripCrs;
    StripsTwice(chunk.oldLines);
    StripsTwice(chunk.newLines);
  }

  lemma StripsAddFile(path: string, contents: string)
    requires SplitLf(contents)[|SplitLf(contents)| - 1] == ""
    ensures var hunk := AddFile(path, contents);
      && (StripHunk(StripHunk(hunk)) == hunk <==> HunkHasNoCr(hunk))
      && (HunkHasNoCr(hunk) ==> StripHunk(hunk) == hunk)
  {
    hide SplitLf, LfText, StripCrs;
    var pieces := SplitLf(contents);
    var texts := pieces[..|pieces| - 1];
    StripAddFile(path, contents);
    StripAddFile(path, LfText(StripCrs(texts)));
    StripsTwice(texts);
    ContentsOfPieces(contents);
    PiecesHaveNoLf(contents);
    StripHasNoLf(texts);
    StripHasNoLf(StripCrs(texts));
    SplitOfLfText(StripCrs(StripCrs(texts)));
    assert pieces == texts + [""];
    var twice := StripCrs(StripCrs(texts));
    assert (twice + [""])[..|twice|] == twice && (texts + [""])[..|texts|] == texts;
    if LfText(twice) == contents {
      assert twice + [""] == texts + [""];
    }
  }

  lemma StripsHunk(hunk: Hunk)
    requires HunkWellFormed(hunk)
    ensures StripHunk(StripHunk(hunk)) == hunk <==> HunkHasNoCr(hunk)
    ensures HunkHasNoCr(hunk) ==> StripHunk(hunk) == hunk
  {
    hide StripCrs, LfText, SplitLf, ChunkWellFormed, IsName, StripChunk, NoFinalCr, StripChunks;
    if hunk.AddFile? {
      StripsAddFile(hunk.path, hunk.contents);
    } else if hunk.UpdateFile? {
      StripsChunks(hunk.chunks);
    }
  }

  lemma StripsChunks(chunks: seq<UpdateFileChunk>)
    ensures StripChunks(StripChunks(chunks)) == chunks <==>
            forall i :: 0 <= i < |chunks| ==> NoFinalCr(chunks[i].oldLines) && NoFinalCr(chunks[i].newLines)
    ensures (forall i :: 0 <= i < |chunks| ==> NoFinalCr(chunks[i].oldLines) && NoFinalCr(chunks[i].newLines)) ==>
            StripChunks(chunks) == chunks
  {
    StripChunksAt(chunks);
    StripChunksAt(StripChunks(chunks));
    hide StripChunks, StripChunk, NoFinalCr;
    forall i | 0 <= i < |chunks|
      ensures StripChunk(StripChunk(chunks[i])) == chunks[i]
              <==> NoFinalCr(chunks[i].oldLines) && NoFinalCr(chunks[i].newLines)
      ensures NoFinalCr(chunks[i].oldLines) && NoFinalCr(chunks[i].newLines) ==> StripChunk(chunks[i]) == chunks[i]
    {
      StripsChunk(chunks[i]);
    }
    if StripChunks(StripChunks(chunks)) == chunks {
      forall i | 0 <= i < |chunks|
        ensures NoFinalCr(chunks[i].oldLines) && NoFinalCr(chunks[i].newLines)
      {
        assert StripChunks(StripChunks(chunks))[i] == chunks[i];
      }
    }
  }

  lemma StripsHunks(hunks: seq<Hunk>)
    requires AllWellFormed(hunks)
    ensures StripHunks(StripHunks(hunks)) == hunks <==> NoneHasCr(hunks)
    ensures NoneHasCr(hunks) ==> StripHunks(hunks) == hunks
  {
    StripHunksAt(hunks);
    StripHunksAt(StripHunks(hunks));
    hide StripHunks, StripHunk, HunkHasNoCr, HunkWellFormed;
    forall i | 0 <= i < |hunks|
      ensures StripHunk(StripHunk(hunks[i])) == hunks[i] <==> HunkHasNoCr(hunks[i])
      ensures HunkHasNoCr(hunks[i]) ==> StripHunk(hunks[i]) == hunks[i]
    {
      StripsHunk(hunks[i]);
    }
    if StripHunks(StripHunks(hunks)) == hunks {
      forall i | 0 <= i < |hunks|
        ensures HunkHasNoCr(hunks[i])
      {
        assert StripHunks(StripHunks(hunks))[i] == hunks[i];
      }
    }
  }

  /** Parsing the print of well-formed hunks gives exactly these hunks and the id back, if and only
      if no line text ends in a CR. */
  lemma PrintParseIff(hunks: seq<Hunk>, environmentId: Option<string>, mode: ParseMode)
    requires AllWellFormed(hunks) && IdPrintable(environmentId)
    ensures var r := Parsed(Print(hunks, environmentId), mode);
      r.Ok? && r.value.environmentId == environmentId && (r.value.hunks == hunks <==> NoneHasCr(hunks))
  {
    hide Parsed, Print, AllWellFormed, IdPrintable, StripHunks, NoneHasCr;
    PrintParseStrips(hunks, environmentId, mode);
    StripsHunks(hunks);
  }

  lemma PrintParse(hunks: seq<Hunk>, environmentId: Option<string>, mode: ParseMode)
    requires AllWellFormed(hunks) && IdPrintable(environmentId) && NoneHasCr(hunks)
    ensures var text := Print(hunks, environmentId);
      Parsed(text, mode) == Ok(ParsedPatch(hunks, text, environmentId))
  {
    hide Parsed, Print, AllWellFormed, IdPrintable, StripHunks, NoneHasCr;
    PrintParseStrips(hunks, environmentId, mode);
    StripsHunks(hunks);
  }
}
