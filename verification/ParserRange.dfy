/** The parser's range: exactly the well-formed hunk lists with a printable environment id, and when
    printing and parsing what it produced changes nothing. */
module ParserRange {
  import opened Text
  import opened Patch
  import opened StreamingParser
  import opened ParserRuns
  import opened PatchText
  import opened PatchPrinter
  import opened PrintRoundTrip

  /** A line as the parser processes it; a bare one has no CR at its end. */
  predicate IsPlain(line: string, bare: bool) {
    NoLf(line) && (bare ==> StripCr(line) == line)
  }

  predicate ArePlain(lines: seq<string>, bare: bool) {
    forall i :: 0 <= i < |lines| ==> IsPlain(lines[i], bare)
  }

  // ---------------------------------------------------------------- what lines give

  lemma TrimIsName(line: string)
    requires NoLf(line)
    ensures NoLf(TrimEnd(line)) && RightTrimmed(TrimEnd(line))
    ensures NoLf(Trim(line)) && RightTrimmed(Trim(line)) && (Trim(line) == "" || !IsWhitespace(Trim(line)[0]))
  {
    hide NoLf, TrimStart, TrimEnd, RightTrimmed, IsWhitespace;
    TrimEndHasNoLf(line);
    TrimStartHasNoLf(TrimEnd(line));
    TrimEndIsTrimmed(line);
    TrimStartKeepsEnd(TrimEnd(line));
  }

  lemma TrimEndIsTrimmed(line: string)
    ensures RightTrimmed(TrimEnd(line))
  {
    hide TrimEnd, IsWhitespace;
  }

  lemma TrimStartKeepsEnd(line: string)
    requires RightTrimmed(line)
    ensures RightTrimmed(TrimStart(line))
  {
    hide TrimStart, IsWhitespace;
    var u := TrimStart(line);
    assert u != "" ==> u[|u| - 1] == line[|line| - 1];
  }

  /** What follows a marker that ends in a blank is a name. */
  lemma BehindMarker(line: string, marker: string)
    requires NoLf(line) && RightTrimmed(line) && StartsWith(line, marker)
    requires marker != "" && marker[|marker| - 1] == ' '
    ensures IsName(line[|marker|..])
  {
    var name := line[|marker|..];
    assert |line| == |marker| ==> line == marker && IsWhitespace(' ');
    assert name != "" ==> name[|name| - 1] == line[|line| - 1];
  }

  lemma HeaderNames(trimmed: string, beforeHunks: bool)
    requires NoLf(trimmed) && RightTrimmed(trimmed)
    ensures var h := HeaderOf(trimmed, beforeHunks);
      && (h.Add? || h.Delete? || h.Update? ==> IsName(h.path))
      && (h.EnvironmentId? ==> NoLf(h.text))
  {
    if StartsWith(trimmed, ENVIRONMENT_ID) {
      NoLfSlice(trimmed, |ENVIRONMENT_ID|, |trimmed|);
      assert trimmed[|ENVIRONMENT_ID|..|trimmed|] == trimmed[|ENVIRONMENT_ID|..];
    }
    hide NoLf, IsName, RightTrimmed;
    if StartsWith(trimmed, ADD_FILE) {
      BehindMarker(trimmed, ADD_FILE);
    }
    if StartsWith(trimmed, DELETE_FILE) {
      BehindMarker(trimmed, DELETE_FILE);
    }
    if StartsWith(trimmed, UPDATE_FILE) {
      BehindMarker(trimmed, UPDATE_FILE);
    }
  }

  lemma MarkerNames(updateLine: string)
    requires NoLf(updateLine) && RightTrimmed(updateLine)
    ensures var m := MarkerOf(updateLine);
      && (m.MoveTo? ==> IsName(m.path))
      && (m.Context? && m.context.Some? ==> IsName(m.context.value))
  {
    hide NoLf, IsName, RightTrimmed;
    if StartsWith(updateLine, MOVE_TO) {
      BehindMarker(updateLine, MOVE_TO);
    }
    if StartsWith(updateLine, CHANGE_CONTEXT) {
      BehindMarker(updateLine, CHANGE_CONTEXT);
    }
  }

  // ---------------------------------------------------------------- the states of such runs

  /** As printable, but for chunks and lines that may still come. */
  predicate ChunkTexts(chunk: UpdateFileChunk, bare: bool) {
    && ArePlain(chunk.oldLines, bare) && ArePlain(chunk.newLines, bare)
    && (chunk.changeContext.Some? ==> IsName(chunk.changeContext.value))
  }

  predicate AllChunkTexts(chunks: seq<UpdateFileChunk>, bare: bool) {
    forall i :: 0 <= i < |chunks| ==> ChunkTexts(chunks[i], bare)
  }

  predicate ContentsPrintable(contents: string, bare: bool) {
    var pieces := SplitLf(contents);
    pieces[|pieces| - 1] == "" && ArePlain(pieces[..|pieces| - 1], bare)
  }

  predicate HunkTexts(hunk: Hunk, bare: bool) {
    match hunk
    case AddFile(path, contents) => IsName(path) && ContentsPrintable(contents, bare)
    case DeleteFile(path) => IsName(path)
    case UpdateFile(path, movePath, chunks) =>
      IsName(path) && (movePath.Some? ==> IsName(movePath.value)) && AllChunkTexts(chunks, bare)
  }

  predicate StateTexts(s: State, bare: bool) {
    (forall i :: 0 <= i < |s.hunks| ==> HunkTexts(s.hunks[i], bare)) && IdPrintable(s.environmentId)
  }

  lemma CompleteIsWellFormed(hunk: Hunk, bare: bool)
    requires HunkTexts(hunk, bare) && HunkValid(hunk) && Complete(hunk)
    ensures HunkWellFormed(hunk) && (bare ==> HunkHasNoCr(hunk))
  {
    hide IsName, ArePlain, UpdateFileChunk.ContextOk, SplitLf, NoneHasLf, NoFinalCr;
    if hunk.AddFile? {
      PlainTexts(SplitLf(hunk.contents)[..|SplitLf(hunk.contents)| - 1], bare);
    } else if hunk.UpdateFile? {
      forall i | 0 <= i < |hunk.chunks|
        ensures ChunkWellFormed(hunk.chunks[i])
        ensures bare ==> NoFinalCr(hunk.chunks[i].oldLines) && NoFinalCr(hunk.chunks[i].newLines)
      {
        assert ChunkTexts(hunk.chunks[i], bare);
        PlainTexts(hunk.chunks[i].oldLines, bare);
        PlainTexts(hunk.chunks[i].newLines, bare);
      }
    }
  }

  lemma PlainTexts(lines: seq<string>, bare: bool)
    requires ArePlain(lines, bare)
    ensures NoneHasLf(lines) && (bare ==> NoFinalCr(lines))
  {
    hide NoLf, StripCr;
    StripCrsAt(lines);
  }

  lemma EmptyContents(bare: bool)
    ensures ContentsPrintable("", bare)
  {
    assert SplitLf("") == [""];
  }

  lemma LineAppended(contents: string, line: string, bare: bool)
    requires ContentsPrintable(contents, bare) && IsPlain(line, bare)
    ensures ContentsPrintable(contents + line + "\n", bare)
  {
    hide SplitLf, JoinLf;
    var pieces := SplitLf(contents);
    var texts := pieces[..|pieces| - 1];
    assert pieces == texts + [""];
    ContentsOfPieces(contents);
    JoinWithBlank(texts + [line]);
    LfTextAppend(texts, line);
    var all := texts + [line] + [""];
    forall i | 0 <= i < |all|
      ensures NoLf(all[i])
    {
      assert i < |texts| ==> IsPlain(texts[i], bare);
    }
    SplitJoin(all);
    assert all[..|all| - 1] == texts + [line];
  }

  lemma {:induction false} LfTextAppend(lines: seq<string>, line: string)
    ensures LfText(lines + [line]) == LfText(lines) + line + "\n"
  {
    if lines == [] {
      assert lines + [line] == [line];
      assert LfText([line]) == line + "\n" + LfText([]);
    } else {
      assert (lines + [line])[1..] == lines[1..] + [line];
      LfTextAppend(lines[1..], line);
      var head, rest := lines[0] + "\n", LfText(lines[1..]);
      assert LfText(lines + [line]) == head + LfText(lines[1..] + [line]);
      assert LfText(lines) == head + rest;
      hide LfText;
      Associative(head, rest + line, "\n");
      Associative(head, rest, line);
    }
  }

  lemma TextsSnoc(lines: seq<string>, line: string, bare: bool)
    requires ArePlain(lines, bare) && IsPlain(line, bare)
    ensures ArePlain(lines + [line], bare)
  {
    hide IsPlain;
  }

  lemma DiffLineTexts(chunks: seq<UpdateFileChunk>, line: string, bare: bool)
    requires IsPlain(line, bare)
    requires AllChunkTexts(chunks, bare)
    ensures var r := AfterDiffLine(chunks, line);
      r.Some? ==> AllChunkTexts(r.value, bare)
  {
    var chunk := if chunks == [] then EMPTY_CHUNK else chunks[|chunks| - 1];
    var text := if line == "" then "" else line[1..];
    assert ChunkTexts(chunk, bare);
    if line != "" {
      PlainTail(line, bare);
    }
    hide IsPlain, IsName;
    TextsSnoc(chunk.oldLines, text, bare);
    TextsSnoc(chunk.newLines, text, bare);
    assert ChunkTexts(chunk.PushContextLine(text), bare) && ChunkTexts(chunk.PushAdded(text), bare)
           && ChunkTexts(chunk.PushRemoved(text), bare);
    hide ChunkTexts, UpdateFileChunk.PushContextLine, UpdateFileChunk.PushAdded, UpdateFileChunk.PushRemoved;
  }

  lemma OpenedChunkTexts(chunks: seq<UpdateFileChunk>, context: Option<string>, bare: bool)
    requires AllChunkTexts(chunks, bare) && (context.Some? ==> IsName(context.value))
    ensures AllChunkTexts(chunks + [EMPTY_CHUNK.(changeContext := context)], bare)
  {
    hide IsName;
    assert ChunkTexts(EMPTY_CHUNK.(changeContext := context), bare);
    hide ChunkTexts;
  }

  lemma FlaggedChunkTexts(chunks: seq<UpdateFileChunk>, bare: bool)
    requires AllChunkTexts(chunks, bare) && chunks != []
    ensures AllChunkTexts(chunks[..|chunks| - 1] + [chunks[|chunks| - 1].(isEndOfFile := true)], bare)
  {
    var last := chunks[|chunks| - 1];
    assert ChunkTexts(last, bare) && ChunkTexts(last.(isEndOfFile := true), bare);
    hide ChunkTexts;
  }

  lemma ChunksReplaced(hunk: Hunk, chunks: seq<UpdateFileChunk>, bare: bool)
    requires hunk.UpdateFile? && HunkTexts(hunk, bare) && AllChunkTexts(chunks, bare)
    ensures HunkTexts(hunk.(chunks := chunks), bare)
  {
    hide IsName, AllChunkTexts;
  }

  lemma MoveAdded(hunk: Hunk, movePath: string, bare: bool)
    requires hunk.UpdateFile? && HunkTexts(hunk, bare) && IsName(movePath)
    ensures HunkTexts(hunk.(movePath := Some(movePath)), bare)
  {
    hide IsName, AllChunkTexts;
  }

  lemma ChunksOfHunk(hunk: Hunk, bare: bool)
    requires hunk.UpdateFile? && HunkTexts(hunk, bare)
    ensures AllChunkTexts(hunk.chunks, bare)
  {
    hide AllChunkTexts;
  }

  /** What a line may do to an update hunk. */
  lemma UpdateLineCases(hunk: Hunk, line: string, lineNumber: nat)
    requires hunk.UpdateFile?
    ensures var r, marker, chunks := AfterUpdateLine(hunk, line, lineNumber), MarkerOf(TrimEnd(line)), hunk.chunks;
      var changed := AfterDiffLine(chunks, line);
      r.Ok? ==>
        || r.value == hunk
        || (marker.MoveTo? && r.value == hunk.(movePath := Some(marker.path)))
        || (marker.Context? && r.value == hunk.(chunks := chunks + [EMPTY_CHUNK.(changeContext := marker.context)]))
        || (chunks != []
            && r.value == hunk.(chunks := chunks[..|chunks| - 1] + [chunks[|chunks| - 1].(isEndOfFile := true)]))
        || (changed.Some? && r.value == hunk.(chunks := changed.value))
  {
    hide TrimEnd, MarkerOf, AfterDiffLine, UpdateFileChunk.IsEmpty;
  }

  lemma UpdateLineTexts(hunk: Hunk, line: string, lineNumber: nat, bare: bool)
    requires hunk.UpdateFile? && HunkTexts(hunk, bare) && IsPlain(line, bare)
    ensures var r := AfterUpdateLine(hunk, line, lineNumber);
      r.Ok? ==> HunkTexts(r.value, bare)
  {
    hide IsPlain, IsName, TrimEnd, RightTrimmed, MarkerOf, AfterDiffLine, AfterUpdateLine, AllChunkTexts, HunkTexts,
         NoLf;
    UpdateLineCases(hunk, line, lineNumber);
    PlainHasNoLf(line, bare);
    TrimIsName(line);
    MarkerNames(TrimEnd(line));
    ChunksOfHunk(hunk, bare);
    DiffLineTexts(hunk.chunks, line, bare);
    var changed := AfterDiffLine(hunk.chunks, line);
    if changed.Some? {
      ChunksReplaced(hunk, changed.value, bare);
    }
    var marker := MarkerOf(TrimEnd(line));
    if marker.Context? {
      OpenedChunkTexts(hunk.chunks, marker.context, bare);
      ChunksReplaced(hunk, hunk.chunks + [EMPTY_CHUNK.(changeContext := marker.context)], bare);
    }
    if marker.MoveTo? {
      MoveAdded(hunk, marker.path, bare);
    }
    if hunk.chunks != [] {
      FlaggedChunkTexts(hunk.chunks, bare);
      ChunksReplaced(hunk, hunk.chunks[..|hunk.chunks| - 1] + [hunk.chunks[|hunk.chunks| - 1].(isEndOfFile := true)],
                     bare);
    }
  }

  lemma LastReplaced(s: State, hunk: Hunk, bare: bool)
    requires StateTexts(s, bare) && s.hunks != [] && HunkTexts(hunk, bare)
    ensures StateTexts(s.WithLast(hunk), bare)
  {
    hide HunkTexts;
  }

  lemma HunkOpened(s: State, hunk: Hunk, mode: Mode, bare: bool)
    requires StateTexts(s, bare) && HunkTexts(hunk, bare)
    ensures StateTexts(s.Open(hunk, mode), bare)
  {
    hide HunkTexts;
  }

  lemma HeaderTexts(s: State, trimmed: string, bare: bool)
    requires StateTexts(s, bare) && NoLf(trimmed) && RightTrimmed(trimmed)
    ensures var r := AfterHeader(s, trimmed);
      r.Ok? && r.value.Some? ==> StateTexts(r.value.value, bare)
  {
    HeaderNames(trimmed, s.mode.StartedPatch?);
    EmptyContents(bare);
    CheckKeepsState(s);
    hide HeaderOf, CheckNotEmpty, RightTrimmed, StateTexts, IsName, ContentsPrintable;
    var r := AfterHeader(s, trimmed);
    if r.Ok? && r.value.Some? {
      var header := HeaderOf(trimmed, s.mode.StartedPatch?);
      match header {
        case EnvironmentId(text) => IdTexts(s, text, bare);
        case EndOfPatch => SameTexts(s, s.(mode := EndedPatch), bare);
        case Add(path) => HunkOpened(s, AddFile(path, ""), InAddFile, bare);
        case Delete(path) => HunkOpened(s, DeleteFile(path), InDeleteFile, bare);
        case Update(path) => HunkOpened(s, UpdateFile(path, None, []), InUpdateFile(s.lineNumber), bare);
      }
    }
  }

  lemma SameTexts(s: State, t: State, bare: bool)
    requires StateTexts(s, bare) && s.hunks == t.hunks && s.environmentId == t.environmentId
    ensures StateTexts(t, bare)
  {
  }

  lemma IdTexts(s: State, text: string, bare: bool)
    requires StateTexts(s, bare) && NoLf(text) && Trim(text) != ""
    ensures StateTexts(s.(environmentId := Some(Trim(text))), bare)
  {
    TrimIsName(text);
    hide HunkTexts, Trim;
  }

  lemma BodyLineTexts(s: State, line: string, bare: bool)
    requires StateTexts(s, bare) && IsPlain(line, bare)
    ensures var r := AfterBodyLine(s, line);
      r.Ok? ==> StateTexts(r.value, bare)
  {
    if s.hunks != [] {
      var last := s.hunks[|s.hunks| - 1];
      assert HunkTexts(last, bare);
      hide StateTexts, AfterUpdateLine, IsPlain, IsName, ContentsPrintable;
      if last.AddFile? {
        if line != "" {
          PlainTail(line, bare);
          LineAppended(last.contents, line[1..], bare);
          LastReplaced(s, last.(contents := last.contents + line[1..] + "\n"), bare);
        }
      } else if last.UpdateFile? {
        UpdateLineTexts(last, line, s.lineNumber, bare);
        var r := AfterUpdateLine(last, line, s.lineNumber);
        if r.Ok? {
          LastReplaced(s, r.value, bare);
        }
      }
    }
  }

  lemma PlainHasNoLf(line: string, bare: bool)
    requires IsPlain(line, bare)
    ensures NoLf(line)
  {
  }

  lemma PlainTail(line: string, bare: bool)
    requires IsPlain(line, bare) && line != ""
    ensures IsPlain(line[1..], bare)
  {
  }

  lemma LineTexts(s: State, line: string, bare: bool)
    requires StateTexts(s, bare) && IsPlain(line, bare)
    ensures var r := AfterLine(s, line);
      r.Ok? ==> StateTexts(r.value, bare)
  {
    hide StateTexts, AfterHeader, AfterBodyLine, IsPlain, Trim, TrimEnd, RightTrimmed;
    PlainHasNoLf(line, bare);
    TrimIsName(line);
    if s.mode.NotStarted? {
      SameTexts(s, s.(mode := StartedPatch), bare);
    } else if !s.mode.EndedPatch? {
      HeaderTexts(s, if s.mode.InUpdateFile? then TrimEnd(line) else Trim(line), bare);
      BodyLineTexts(s, line, bare);
    }
  }

  lemma FeedLineTexts(s: State, line: string, bare: bool)
    requires StateTexts(s, bare) && IsPlain(line, bare)
    ensures StateTexts(FeedLine(s, line).at.state, bare)
  {
    hide StateTexts, AfterLine, IsPlain;
    var numbered := s.(lineNumber := s.lineNumber + 1);
    SameTexts(s, numbered, bare);
    LineTexts(numbered, line, bare);
  }

  lemma {:induction false} FeedLinesTexts(s: State, lines: seq<string>, bare: bool)
    requires StateTexts(s, bare) && ArePlain(lines, bare)
    ensures StateTexts(FeedLines(s, lines).at.state, bare)
    decreases |lines|
  {
    hide StateTexts, FeedLine, IsPlain;
    if lines != [] {
      FeedLineTexts(s, lines[0], bare);
      var fed := FeedLine(s, lines[0]);
      if fed.error.None? {
        FeedLinesTexts(fed.at.state, lines[1..], bare);
      }
    }
  }

  lemma FinishTexts(p: Snapshot, bare: bool)
    requires StateTexts(p.state, bare) && Trim(p.buffer) == END_PATCH
    ensures StateTexts(Finished(p).at.state, bare)
  {
    hide StateTexts, FeedLine, CheckNotEmpty, Trim;
    assert Trim("") == "" by { TrimKeeps(""); }
    var numbered := p.state.(lineNumber := p.state.lineNumber + 1);
    CheckKeepsState(numbered);
    SameTexts(p.state, numbered, bare);
    SameTexts(p.state, numbered.(mode := EndedPatch), bare);
  }

  // ---------------------------------------------------------------- the text that is parsed

  /** What is streamed: lines without line feeds, the last one the end marker. */
  lemma BoundariesKeep(lines: seq<string>, mode: ParseMode)
    requires NoneHasLf(lines)
    ensures var r := Boundaries(lines, mode);
      r.Ok? ==>
        && |r.value| >= 2 && NoneHasLf(r.value) && Trim(r.value[|r.value| - 1]) == END_PATCH
        && forall line :: line in r.value ==> line in lines
  {
    hide NoLf, Trim, IsHeredocStart, EndsWithEof;
    assert BEGIN_PATCH[4] != END_PATCH[4];
  }

  lemma LinesHaveNoLf(s: string)
    ensures NoneHasLf(Lines(s))
  {
    hide SplitLf, StripCrs, NoLf;
    PiecesHaveNoLf(s);
    var pieces := SplitLf(s);
    StripHasNoLf(pieces[..|pieces| - 1]);
  }

  /** No line still ends in a CR after the parser has taken one off. */
  predicate BareWhenStripped(lines: seq<string>) {
    forall line :: line in lines ==> StripCr(StripCr(line)) == StripCr(line)
  }

  lemma StrippedArePlain(lines: seq<string>, bare: bool)
    requires NoneHasLf(lines) && (bare ==> BareWhenStripped(lines))
    ensures ArePlain(StripCrs(lines), bare)
  {
    StripCrsAt(lines);
    forall i | 0 <= i < |lines|
      ensures IsPlain(StripCrs(lines)[i], bare)
    {
      StripCrHasNoLf(lines[i]);
      assert lines[i] in lines;
    }
  }

  lemma FedTexts(front: seq<string>, last: string, bare: bool)
    requires front != [] && NoneHasLf(front + [last]) && Trim(last) == END_PATCH && (bare ==> BareWhenStripped(front))
    ensures var fed := Feed(Snapshot("", START), JoinLf(front + [last]));
      fed.error.None? ==> StateTexts(Finished(fed.at).at.state, bare)
  {
    hide Feed, FeedLines, Finished, JoinLf, StateTexts, ArePlain, NoLf, StripCrs, Trim, BareWhenStripped, NoneHasLf;
    NoTexts(bare);
    FrontHasNoLf(front, last);
    StrippedArePlain(front, bare);
    FeedLinesTexts(START, StripCrs(front), bare);
    FeedPieces(START, front + [last]);
    var fed := Feed(Snapshot("", START), JoinLf(front + [last]));
    if fed.error.None? {
      FinishTexts(fed.at, bare);
    }
  }

  lemma NoTexts(bare: bool)
    ensures StateTexts(START, bare)
  {
  }

  lemma FrontHasNoLf(front: seq<string>, last: string)
    requires NoneHasLf(front + [last])
    ensures NoneHasLf(front) && (front + [last])[..|front + [last]| - 1] == front
    ensures forall i :: 0 <= i < |front + [last]| ==> NoLf((front + [last])[i])
  {
    hide NoLf;
    assert forall i :: 0 <= i < |front| ==> front[i] == (front + [last])[i];
  }

  lemma StreamedTexts(front: seq<string>, last: string, bare: bool)
    requires front != [] && NoneHasLf(front + [last]) && Trim(last) == END_PATCH && (bare ==> BareWhenStripped(front))
    ensures var r := Streamed(front + [last]);
      r.Ok? ==>
        && AllWellFormed(r.value.hunks) && IdPrintable(r.value.environmentId)
        && (bare ==> NoneHasCr(r.value.hunks))
  {
    hide Feed, Finished, JoinLf, Valid, AllComplete, Grows, StateTexts, Trim, BareWhenStripped, NoneHasLf,
         AllWellFormed, IdPrintable, NoneHasCr;
    FedTexts(front, last, bare);
    StartIsValid();
    RunsKeep(Snapshot("", START), JoinLf(front + [last]));
    var fed := Feed(Snapshot("", START), JoinLf(front + [last]));
    if fed.error.None? {
      FinishedIsComplete(fed.at);
      if Finished(fed.at).error.None? {
        TextsAreWellFormed(Finished(fed.at).at.state, bare);
      }
    }
  }

  lemma TextsAreWellFormed(s: State, bare: bool)
    requires AllComplete(s.hunks) && StateTexts(s, bare)
    ensures AllWellFormed(s.hunks) && IdPrintable(s.environmentId) && (bare ==> NoneHasCr(s.hunks))
  {
    hide HunkTexts, HunkWellFormed, HunkValid, Complete, HunkHasNoCr;
    forall i | 0 <= i < |s.hunks|
      ensures HunkWellFormed(s.hunks[i]) && (bare ==> HunkHasNoCr(s.hunks[i]))
    {
      CompleteIsWellFormed(s.hunks[i], bare);
    }
  }

  lemma ParsedTexts(patch: string, mode: ParseMode, bare: bool)
    requires bare ==> BareWhenStripped(Lines(Trim(patch)))
    ensures var r := Parsed(patch, mode);
      r.Ok? ==>
        && AllWellFormed(r.value.hunks) && IdPrintable(r.value.environmentId)
        && (bare ==> NoneHasCr(r.value.hunks))
  {
    hide NoneHasLf, Trim, Lines, Boundaries, Streamed, AllWellFormed, IdPrintable, NoneHasCr, StripCr;
    LinesHaveNoLf(Trim(patch));
    BoundariesKeep(Lines(Trim(patch)), mode);
    var lines := Boundaries(Lines(Trim(patch)), mode);
    if lines.Ok? {
      var front, last := lines.value[..|lines.value| - 1], lines.value[|lines.value| - 1];
      assert lines.value == front + [last];
      StreamedTexts(front, last, bare);
    }
  }

  /** Whatever text was parsed, its hunks can be printed. */
  lemma ParsedIsWellFormed(patch: string, mode: ParseMode)
    ensures var r := Parsed(patch, mode);
      r.Ok? ==> AllWellFormed(r.value.hunks) && IdPrintable(r.value.environmentId)
  {
    ParsedTexts(patch, mode, false);
  }

  /** Whatever text was parsed: printing the hunks and parsing the print gives the same hunks and the
      same id, if and only if no line text kept a CR at its end. */
  lemma ParsePrintParseIff(patch: string, mode: ParseMode)
    ensures var r := Parsed(patch, mode);
      r.Ok? ==>
        var again := Parsed(Print(r.value.hunks, r.value.environmentId), mode);
        && again.Ok? && again.value.environmentId == r.value.environmentId
        && (again.value.hunks == r.value.hunks <==> NoneHasCr(r.value.hunks))
  {
    hide Parsed, Print, AllWellFormed, IdPrintable, NoneHasCr;
    ParsedIsWellFormed(patch, mode);
    var r := Parsed(patch, mode);
    if r.Ok? {
      PrintParseIff(r.value.hunks, r.value.environmentId, mode);
    }
  }

  /** So the round trip holds for every text none of whose lines ends in more than one CR once its
      line end is gone: with LF and with CRLF line ends alike. */
  lemma ParsePrintParse(patch: string, mode: ParseMode)
    requires BareWhenStripped(Lines(Trim(patch)))
    ensures var r := Parsed(patch, mode);
      r.Ok? ==>
        var text := Print(r.value.hunks, r.value.environmentId);
        Parsed(text, mode) == Ok(ParsedPatch(r.value.hunks, text, r.value.environmentId))
  {
    hide Parsed, Print, AllWellFormed, IdPrintable, NoneHasCr, BareWhenStripped;
    ParsedTexts(patch, mode, true);
    var r := Parsed(patch, mode);
    if r.Ok? {
      PrintParse(r.value.hunks, r.value.environmentId, mode);
    }
  }

  // ---------------------------------------------------------------- every well-formed list is in the range

  function GrowCrs(lines: seq<string>): seq<string> {
    if lines == [] then [] else [lines[0] + "\r"] + GrowCrs(lines[1..])
  }

  function GrowChunk(chunk: UpdateFileChunk): UpdateFileChunk {
    chunk.(oldLines := GrowCrs(chunk.oldLines), newLines := GrowCrs(chunk.newLines))
  }

  function GrowChunks(chunks: seq<UpdateFileChunk>): seq<UpdateFileChunk> {
    if chunks == [] then [] else [GrowChunk(chunks[0])] + GrowChunks(chunks[1..])
  }

  /** The hunk with a CR behind every line text. */
  function GrowHunk(hunk: Hunk): Hunk {
    match hunk
    case AddFile(path, contents) =>
      var pieces := SplitLf(contents);
      AddFile(path, LfText(GrowCrs(pieces[..|pieces| - 1])))
    case DeleteFile(_) => hunk
    case UpdateFile(_, _, chunks) => hunk.(chunks := GrowChunks(chunks))
  }

  function GrowHunks(hunks: seq<Hunk>): seq<Hunk> {
    if hunks == [] then [] else [GrowHunk(hunks[0])] + GrowHunks(hunks[1..])
  }

  lemma StripOfGrown(line: string)
    ensures StripCr(line + "\r") == line && (NoLf(line) ==> NoLf(line + "\r"))
  {
  }

  lemma {:induction false} GrowCrsAt(lines: seq<string>)
    ensures |GrowCrs(lines)| == |lines|
    ensures forall i :: 0 <= i < |lines| ==> GrowCrs(lines)[i] == lines[i] + "\r"
  {
    if lines != [] {
      GrowCrsAt(lines[1..]);
    }
  }

  lemma {:induction false} StripGrownCrs(lines: seq<string>)
    ensures StripCrs(GrowCrs(lines)) == lines
    ensures NoneHasLf(lines) ==> NoneHasLf(GrowCrs(lines))
  {
    GrowCrsAt(lines);
    StripCrsAt(GrowCrs(lines));
    forall i | 0 <= i < |lines|
      ensures StripCr(GrowCrs(lines)[i]) == lines[i] && (NoLf(lines[i]) ==> NoLf(GrowCrs(lines)[i]))
    {
      StripOfGrown(lines[i]);
    }
    hide StripCr, NoLf, StripCrs, GrowCrs;
  }

  lemma StripGrownChunk(chunk: UpdateFileChunk)
    requires ChunkWellFormed(chunk)
    ensures StripChunk(GrowChunk(chunk)) == chunk && ChunkWellFormed(GrowChunk(chunk))
  {
    GrowCrsAt(chunk.oldLines);
    GrowCrsAt(chunk.newLines);
    StripGrownCrs(chunk.oldLines);
    StripGrownCrs(chunk.newLines);
    hide StripCrs, GrowCrs, NoneHasLf, IsName, Increasing;
  }

  lemma StripGrownAddFile(path: string, contents: string)
    requires SplitLf(contents)[|SplitLf(contents)| - 1] == ""
    ensures var hunk := GrowHunk(AddFile(path, contents));
      && StripHunk(hunk) == AddFile(path, contents)
      && SplitLf(hunk.contents)[|SplitLf(hunk.contents)| - 1] == ""
  {
    hide SplitLf, LfText, StripCrs, GrowCrs, NoneHasLf;
    var pieces := SplitLf(contents);
    var texts := pieces[..|pieces| - 1];
    PiecesHaveNoLf(contents);
    ContentsOfPieces(contents);
    StripGrownCrs(texts);
    SplitOfLfText(GrowCrs(texts));
    assert (GrowCrs(texts) + [""])[..|GrowCrs(texts)|] == GrowCrs(texts);
  }

  lemma {:induction false} StripGrownChunks(chunks: seq<UpdateFileChunk>)
    requires forall i :: 0 <= i < |chunks| ==> ChunkWellFormed(chunks[i])
    ensures StripChunks(GrowChunks(chunks)) == chunks && |GrowChunks(chunks)| == |chunks|
    ensures forall i :: 0 <= i < |chunks| ==> ChunkWellFormed(GrowChunks(chunks)[i])
  {
    hide ChunkWellFormed, StripChunk, GrowChunk;
    if chunks != [] {
      StripGrownChunk(chunks[0]);
      StripGrownChunks(chunks[1..]);
      assert ([GrowChunk(chunks[0])] + GrowChunks(chunks[1..]))[1..] == GrowChunks(chunks[1..]);
    }
  }

  lemma StripGrownHunk(hunk: Hunk)
    requires HunkWellFormed(hunk)
    ensures StripHunk(GrowHunk(hunk)) == hunk && HunkWellFormed(GrowHunk(hunk))
  {
    hide ChunkWellFormed, IsName, SplitLf, LfText, StripCrs, GrowCrs, StripChunks, GrowChunks;
    if hunk.AddFile? {
      StripGrownAddFile(hunk.path, hunk.contents);
    } else if hunk.UpdateFile? {
      StripGrownChunks(hunk.chunks);
    }
  }

  lemma {:induction false} StripGrownHunks(hunks: seq<Hunk>)
    requires AllWellFormed(hunks)
    ensures StripHunks(GrowHunks(hunks)) == hunks && AllWellFormed(GrowHunks(hunks))
  {
    hide HunkWellFormed, StripHunk, GrowHunk;
    if hunks != [] {
      assert AllWellFormed(hunks[1..]);
      StripGrownHunk(hunks[0]);
      StripGrownHunks(hunks[1..]);
      assert ([GrowHunk(hunks[0])] + GrowHunks(hunks[1..]))[1..] == GrowHunks(hunks[1..]);
    }
  }

  predicate Parses(patch: string, mode: ParseMode, hunks: seq<Hunk>, environmentId: Option<string>) {
    var r := Parsed(patch, mode);
    r.Ok? && r.value.hunks == hunks && r.value.environmentId == environmentId
  }

  /** The parser's range: some text parses to given hunks and a given id, if and only if the hunks are
      well formed and the id can be printed. */
  lemma RangeIff(hunks: seq<Hunk>, environmentId: Option<string>, mode: ParseMode)
    ensures (exists patch :: Parses(patch, mode, hunks, environmentId))
            <==> AllWellFormed(hunks) && IdPrintable(environmentId)
  {
    hide Parsed, Print, AllWellFormed, IdPrintable, StripHunks, GrowHunks;
    if AllWellFormed(hunks) && IdPrintable(environmentId) {
      var grown := GrowHunks(hunks);
      StripGrownHunks(hunks);
      StripGrownHunks(grown);
      PrintParseStrips(GrowHunks(grown), environmentId, mode);
      assert Parses(Print(GrowHunks(grown), environmentId), mode, hunks, environmentId);
    }
    if patch :| Parses(patch, mode, hunks, environmentId) {
      ParsedIsWellFormed(patch, mode);
    }
  }

  // ---------------------------------------------------------------- a CR that gets lost

  lemma StripOneLine(path: string, text: string)
    requires NoLf(text)
    ensures StripHunk(AddFile(path, text + "\n")) == AddFile(path, StripCr(text) + "\n")
    ensures SplitLf(text + "\n") == [text, ""]
  {
    hide StripCr, NoLf;
    assert text + "\n" == text + "\n" + "";
    SplitLfAtBreak(text, "");
    assert [text, ""][..1] == [text];
    StripOne(text);
    assert LfText([StripCr(text)]) == StripCr(text) + "\n";
  }

  /** The print of a one-line file loses two CRs on the way. */
  lemma OneLineParses(path: string, text: string, mode: ParseMode)
    requires IsName(path) && NoLf(text)
    ensures Parses(Print([AddFile(path, text + "\n")], None), mode,
                   [AddFile(path, StripCr(StripCr(text)) + "\n")], None)
  {
    hide Parsed, Print, StripHunk, StripHunks, SplitLf, StripCr, NoLf, IsName;
    StripCrHasNoLf(text);
    StripOneLine(path, text);
    StripOneLine(path, StripCr(text));
    StripSingle(AddFile(path, text + "\n"));
    StripSingle(AddFile(path, StripCr(text) + "\n"));
    PrintParseStrips([AddFile(path, text + "\n")], None, mode);
  }

  /** Written with three CRs behind it, an added line parses with one; printed and parsed again, it
      has none. */
  lemma FinalCrIsLost(path: string, text: string, mode: ParseMode)
    requires IsName(path) && NoLf(text) && StripCr(text) == text
    ensures Parses(Print([AddFile(path, text + "\r\r\r" + "\n")], None), mode,
                   [AddFile(path, text + "\r" + "\n")], None)
    ensures Parses(Print([AddFile(path, text + "\r" + "\n")], None), mode, [AddFile(path, text + "\n")], None)
  {
    hide Parsed, Print, Parses, IsName;
    StripOfGrown(text);
    StripOfGrown(text + "\r");
    StripOfGrown(text + "\r\r");
    assert text + "\r" + "\r" == text + "\r\r" && text + "\r\r" + "\r" == text + "\r\r\r";
    hide StripCr, NoLf;
    OneLineParses(path, text + "\r\r\r", mode);
    OneLineParses(path, text + "\r", mode);
  }

  lemma StripSingle(hunk: Hunk)
    ensures StripHunks([hunk]) == [StripHunk(hunk)]
  {
    hide StripHunk;
    assert [hunk][1..] == [];
  }
}
