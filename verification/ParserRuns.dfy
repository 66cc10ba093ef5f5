/** Properties of whole parser runs: how the text is cut does not matter, and what every
    reachable state keeps. */
module ParserRuns {
  import opened Text
  import opened Patch
  import opened StreamingParser

  // ---------------------------------------------------------------- any split, one result

  function Concat(deltas: seq<string>): string {
    if deltas == [] then "" else deltas[0] + Concat(deltas[1..])
  }

  /** One call per delta, up to the first error. */
  function FeedAll(p: Snapshot, deltas: seq<string>): Fed
    decreases |deltas|
  {
    if deltas == [] then Fed(p, None)
    else
      var fed := Feed(p, deltas[0]);
      if fed.error.Some? then fed else FeedAll(fed.at, deltas[1..])
  }

  /** Pushing a text in two parts is pushing it at once. */
  lemma {:induction false} FeedConcat(p: Snapshot, a: string, b: string)
    ensures var fed := Feed(p, a);
      Feed(p, a + b) == if fed.error.Some? then fed else Feed(fed.at, b)
    decreases |a|
  {
    hide FeedChar;
    if a == "" {
      assert a + b == b;
    } else {
      assert (a + b)[1..] == a[1..] + b;
      var fed := FeedChar(p, a[0]);
      if fed.error.None? {
        FeedConcat(fed.at, a[1..], b);
      }
    }
  }

  /** However a text is split into deltas: same state, hunks, environment id, or first error. */
  lemma {:induction false} AnySplitIsOnePush(p: Snapshot, deltas: seq<string>)
    ensures FeedAll(p, deltas) == Feed(p, Concat(deltas))
    decreases |deltas|
  {
    if deltas == [] {
      FeedEnd(p);
    } else {
      FeedConcat(p, deltas[0], Concat(deltas[1..]));
      hide Feed;
      var fed := Feed(p, deltas[0]);
      if fed.error.None? {
        AnySplitIsOnePush(fed.at, deltas[1..]);
      }
    }
  }

  /** Line by line, up to the first error. */
  function FeedLines(s: State, lines: seq<string>): Fed
    decreases |lines|
  {
    if lines == [] then Fed(Snapshot("", s), None)
    else
      var fed := FeedLine(s, lines[0]);
      if fed.error.Some? then fed else FeedLines(fed.at.state, lines[1..])
  }

  lemma {:induction false} FeedPlain(p: Snapshot, plain: string)
    requires NoLf(plain)
    ensures Feed(p, plain) == Fed(p.(buffer := p.buffer + plain), None)
    decreases |plain|
  {
    if plain == "" {
      assert p.buffer + plain == p.buffer;
    } else {
      FeedPlain(p.(buffer := p.buffer + [plain[0]]), plain[1..]);
      assert p.buffer + [plain[0]] + plain[1..] == p.buffer + plain;
    }
  }

  lemma FeedTerminated(s: State, line: string, rest: string)
    requires NoLf(line)
    ensures var fed := FeedLine(s, StripCr(line));
      Feed(Snapshot("", s), line + "\n" + rest) == if fed.error.Some? then fed else Feed(fed.at, rest)
  {
    hide Feed, FeedLine, StripCr;
    FeedConcat(Snapshot("", s), line, "\n" + rest);
    Associative(line, "\n", rest);
    FeedPlain(Snapshot("", s), line);
    assert "" + line == line;
    FeedStep(Snapshot(line, s), "\n" + rest, 0);
    assert ("\n" + rest)[0..] == "\n" + rest && ("\n" + rest)[1..] == rest;
  }

  lemma {:induction false} FeedPieces(s: State, pieces: seq<string>)
    requires pieces != []
    requires forall i :: 0 <= i < |pieces| ==> NoLf(pieces[i])
    ensures var fed := FeedLines(s, StripCrs(pieces[..|pieces| - 1]));
      Feed(Snapshot("", s), JoinLf(pieces))
      == if fed.error.Some? then fed else fed.(at := Snapshot(pieces[|pieces| - 1], fed.at.state))
    decreases |pieces|
  {
    hide Feed, FeedLine, StripCr;
    if |pieces| == 1 {
      FeedPlain(Snapshot("", s), pieces[0]);
      assert "" + pieces[0] == pieces[0];
    } else {
      FeedTerminated(s, pieces[0], JoinLf(pieces[1..]));
      assert pieces[..|pieces| - 1][1..] == pieces[1..][..|pieces| - 2];
      var rest := StripCrs(pieces[1..][..|pieces| - 2]);
      assert ([StripCr(pieces[0])] + rest)[1..] == rest;
      var fed := FeedLine(s, StripCr(pieces[0]));
      if fed.error.None? {
        FeedLineEmptiesBuffer(s, StripCr(pieces[0]));
        FeedPieces(fed.at.state, pieces[1..]);
      }
    }
  }

  lemma FeedLineEmptiesBuffer(s: State, line: string)
    ensures FeedLine(s, line).at.buffer == ""
  {
    hide AfterLine;
  }

  /** A push is the fold of the line step over the terminated lines, each without one trailing CR;
      what follows the last line feed stays in the buffer. */
  lemma PushIsLineFold(s: State, text: string)
    ensures var pieces := SplitLf(text);
      var fed := FeedLines(s, StripCrs(pieces[..|pieces| - 1]));
      Feed(Snapshot("", s), text)
      == if fed.error.Some? then fed else fed.(at := Snapshot(pieces[|pieces| - 1], fed.at.state))
  {
    JoinSplit(text);
    FeedPieces(s, SplitLf(text));
  }

  // ---------------------------------------------------------------- line numbers

  /** A hunk error names the line just read, or the one that opened the update hunk. */
  lemma ErrorNamesLine(s: State, line: string)
    ensures var error := FeedLine(s, line).error;
      error.Some? && error.value.InvalidHunk? ==>
        error.value.lineNumber == s.lineNumber + 1 || s.mode == InUpdateFile(error.value.lineNumber)
  {
    hide HeaderOf, MarkerOf, Trim, TrimEnd, AfterDiffLine;
  }

  // ---------------------------------------------------------------- the invariant

  predicate Complete(hunk: Hunk) {
    hunk.UpdateFile? ==> hunk.chunks != [] && forall i :: 0 <= i < |hunk.chunks| ==> !hunk.chunks[i].IsEmpty()
  }

  /** At most the last chunk is still without lines, and an ended chunk has some. */
  ghost predicate ChunksValid(chunks: seq<UpdateFileChunk>) {
    && (forall i :: 0 <= i < |chunks| ==> chunks[i].ContextOk())
    && (forall i :: 0 <= i < |chunks| - 1 ==> !chunks[i].IsEmpty())
    && (chunks != [] && chunks[|chunks| - 1].IsEmpty() ==> !chunks[|chunks| - 1].isEndOfFile)
  }

  ghost predicate HunkValid(hunk: Hunk) {
    match hunk
    case AddFile(_, contents) => contents == "" || contents[|contents| - 1] == '\n'
    case DeleteFile(_) => true
    case UpdateFile(_, _, chunks) => ChunksValid(chunks)
  }

  /** The mode names the kind of the last hunk; all hunks before it are complete. */
  ghost predicate Valid(s: State) {
    && (forall i :: 0 <= i < |s.hunks| ==> HunkValid(s.hunks[i]))
    && (forall i :: 0 <= i < |s.hunks| - 1 ==> Complete(s.hunks[i]))
    && match s.mode
       case NotStarted => s.hunks == [] && s.environmentId == None
       case StartedPatch => s.hunks == []
       case InAddFile => s.hunks != [] && s.hunks[|s.hunks| - 1].AddFile?
       case InDeleteFile => s.hunks != [] && s.hunks[|s.hunks| - 1].DeleteFile?
       case InUpdateFile(n) => s.hunks != [] && s.hunks[|s.hunks| - 1].UpdateFile? && 0 < n <= s.lineNumber
       case EndedPatch => s.hunks != [] ==> Complete(s.hunks[|s.hunks| - 1])
  }

  /** The lines a chunk has stay; a chunk flagged as ended stays as it is. */
  ghost predicate ChunkGrows(before: UpdateFileChunk, after: UpdateFileChunk) {
    && before.changeContext == after.changeContext
    && before.oldLines <= after.oldLines
    && before.newLines <= after.newLines
    && before.contextLineIndices <= after.contextLineIndices
    && (before.isEndOfFile ==> before == after)
  }

  ghost predicate ChunksGrow(before: seq<UpdateFileChunk>, after: seq<UpdateFileChunk>) {
    before != [] ==>
      && |before| <= |after|
      && before[..|before| - 1] == after[..|before| - 1]
      && ChunkGrows(before[|before| - 1], after[|before| - 1])
  }

  ghost predicate HunkGrows(before: Hunk, after: Hunk) {
    match before
    case AddFile(path, contents) => after.AddFile? && after.path == path && contents <= after.contents
    case DeleteFile(_) => after == before
    case UpdateFile(path, movePath, chunks) =>
      && after.UpdateFile? && after.path == path && (movePath.Some? ==> after.movePath == movePath)
      && ChunksGrow(chunks, after.chunks)
  }

  /** Only the last hunk may still change, and only by growing; a parsed id stays. */
  ghost predicate Grows(before: State, after: State) {
    && |before.hunks| <= |after.hunks|
    && before.lineNumber <= after.lineNumber
    && (before.environmentId.Some? ==> after.environmentId == before.environmentId)
    && (before.hunks != [] ==>
         && before.hunks[..|before.hunks| - 1] == after.hunks[..|before.hunks| - 1]
         && HunkGrows(before.hunks[|before.hunks| - 1], after.hunks[|before.hunks| - 1]))
  }

  lemma ChunksGrowTransitive(a: seq<UpdateFileChunk>, b: seq<UpdateFileChunk>, c: seq<UpdateFileChunk>)
    requires ChunksGrow(a, b) && ChunksGrow(b, c)
    ensures ChunksGrow(a, c)
  {
    if a != [] {
      var k := |a| - 1;
      assert b[..|b| - 1] == c[..|b| - 1];
      assert a[..k] == c[..k] by {
        assert k <= |b| - 1;
        assert b[..|b| - 1][..k] == b[..k] && c[..|b| - 1][..k] == c[..k];
      }
      if k < |b| - 1 {
        assert b[k] == b[..|b| - 1][k] == c[..|b| - 1][k] == c[k];
      }
    }
  }

  lemma HunkGrowsTransitive(a: Hunk, b: Hunk, c: Hunk)
    requires HunkGrows(a, b) && HunkGrows(b, c)
    ensures HunkGrows(a, c)
  {
    hide ChunksGrow;
    if a.UpdateFile? {
      ChunksGrowTransitive(a.chunks, b.chunks, c.chunks);
    }
  }

  lemma HunkGrowsReflexive(hunk: Hunk)
    ensures HunkGrows(hunk, hunk)
  {
  }

  lemma GrowsTransitive(a: State, b: State, c: State)
    requires Grows(a, b) && Grows(b, c)
    ensures Grows(a, c)
  {
    hide HunkGrows;
    if a.hunks != [] {
      var k := |a.hunks| - 1;
      assert a.hunks[..k] == c.hunks[..k] by {
        assert k <= |b.hunks| - 1;
        assert b.hunks[..|b.hunks| - 1][..k] == b.hunks[..k] && c.hunks[..|b.hunks| - 1][..k] == c.hunks[..k];
      }
      if k < |b.hunks| - 1 {
        assert b.hunks[k] == b.hunks[..|b.hunks| - 1][k] == c.hunks[..|b.hunks| - 1][k] == c.hunks[k];
      } else {
        HunkGrowsTransitive(a.hunks[k], b.hunks[k], c.hunks[k]);
      }
    }
  }

  // ---------------------------------------------------------------- one line keeps it

  lemma OpenKeeps(s: State, hunk: Hunk, mode: Mode)
    requires Valid(s) && CheckNotEmpty(s).Ok?
             && (s.mode.StartedPatch? || s.mode.InAddFile? || s.mode.InDeleteFile? || s.mode.InUpdateFile?)
    requires HunkValid(hunk)
    requires match mode
      case InAddFile => hunk.AddFile?
      case InDeleteFile => hunk.DeleteFile?
      case InUpdateFile(n) => hunk.UpdateFile? && 0 < n <= s.lineNumber
      case _ => false
    ensures Valid(s.Open(hunk, mode)) && Grows(s, s.Open(hunk, mode))
  {
    LastIsComplete(s);
    hide HunkValid, Complete, CheckNotEmpty;
    if s.hunks != [] {
      HunkGrowsReflexive(s.hunks[|s.hunks| - 1]);
    }
  }

  lemma LastIsComplete(s: State)
    requires Valid(s) && CheckNotEmpty(s) == Ok(s)
    ensures s.hunks != [] ==> Complete(s.hunks[|s.hunks| - 1])
  {
    if s.hunks != [] {
      var last := s.hunks[|s.hunks| - 1];
      assert HunkValid(last);
    }
  }

  lemma CheckKeepsState(s: State)
    ensures CheckNotEmpty(s).Ok? ==> CheckNotEmpty(s) == Ok(s)
  {
  }

  lemma HeaderKeeps(s: State, trimmed: string)
    requires Valid(s) && !s.mode.NotStarted? && !s.mode.EndedPatch? && 0 < s.lineNumber
    ensures var r := AfterHeader(s, trimmed);
      r.Ok? && r.value.Some? ==> Valid(r.value.value) && Grows(s, r.value.value)
  {
    CheckKeepsState(s);
    var r := AfterHeader(s, trimmed);
    if r.Ok? && r.value.Some? {
      var header := HeaderOf(trimmed, s.mode.StartedPatch?);
      HeaderOnlyBeforeHunks(trimmed, s.mode.StartedPatch?);
      hide HeaderOf, CheckNotEmpty, Trim;
      match header {
        case EnvironmentId(_) =>
          assert Grows(s, r.value.value);
        case EndOfPatch =>
          LastIsComplete(s);
          GrowsInPlace(s, r.value.value);
        case Add(path) => OpenKeeps(s, AddFile(path, ""), InAddFile);
        case Delete(path) => OpenKeeps(s, DeleteFile(path), InDeleteFile);
        case Update(path) => OpenKeeps(s, UpdateFile(path, None, []), InUpdateFile(s.lineNumber));
      }
    }
  }

  lemma HeaderOnlyBeforeHunks(trimmed: string, beforeHunks: bool)
    ensures HeaderOf(trimmed, beforeHunks).EnvironmentId? ==> beforeHunks
  {
  }

  lemma GrowsInPlace(s: State, after: State)
    requires s.hunks == after.hunks && s.lineNumber <= after.lineNumber
    requires s.environmentId.Some? ==> after.environmentId == s.environmentId
    ensures Grows(s, after)
  {
    if s.hunks != [] {
      HunkGrowsReflexive(s.hunks[|s.hunks| - 1]);
    }
  }

  lemma WithLastKeeps(s: State, hunk: Hunk)
    requires Valid(s) && s.hunks != [] && !s.mode.EndedPatch?
    requires HunkValid(hunk) && HunkGrows(s.hunks[|s.hunks| - 1], hunk)
    ensures Valid(s.WithLast(hunk)) && Grows(s, s.WithLast(hunk))
  {
    var last := s.hunks[|s.hunks| - 1];
    assert (last.AddFile? <==> hunk.AddFile?) && (last.DeleteFile? <==> hunk.DeleteFile?);
    hide HunkValid, HunkGrows, Complete;
  }

  /** The last chunk replaced by a grown one. */
  lemma ReplacedChunk(chunks: seq<UpdateFileChunk>, chunk: UpdateFileChunk)
    requires ChunksValid(chunks) && chunk.ContextOk() && !chunk.IsEmpty()
    requires chunks != [] ==> ChunkGrows(chunks[|chunks| - 1], chunk)
    ensures var front := if chunks == [] then [] else chunks[..|chunks| - 1];
      ChunksValid(front + [chunk]) && ChunksGrow(chunks, front + [chunk])
  {
    hide UpdateFileChunk.ContextOk, ChunkGrows, UpdateFileChunk.IsEmpty;
    if chunks != [] {
      assert (chunks[..|chunks| - 1] + [chunk])[..|chunks| - 1] == chunks[..|chunks| - 1];
    }
  }

  lemma EmptyChunkOk(context: Option<string>)
    ensures EMPTY_CHUNK.(changeContext := context).ContextOk()
  {
  }

  lemma ChunkOpened(chunks: seq<UpdateFileChunk>, context: Option<string>)
    requires ChunksValid(chunks) && (chunks != [] ==> !chunks[|chunks| - 1].IsEmpty())
    ensures var after := chunks + [EMPTY_CHUNK.(changeContext := context)];
      ChunksValid(after) && ChunksGrow(chunks, after)
  {
    EmptyChunkOk(context);
    hide UpdateFileChunk.ContextOk;
    if chunks != [] {
      var after := chunks + [EMPTY_CHUNK.(changeContext := context)];
      assert after[..|chunks| - 1] == chunks[..|chunks| - 1];
    }
  }

  lemma PushesGrow(chunk: UpdateFileChunk, text: string)
    requires chunk.ContextOk() && !chunk.isEndOfFile
    ensures var c := chunk.PushContextLine(text); c.ContextOk() && !c.IsEmpty() && ChunkGrows(chunk, c)
    ensures var c := chunk.PushAdded(text); c.ContextOk() && !c.IsEmpty() && ChunkGrows(chunk, c)
    ensures var c := chunk.PushRemoved(text); c.ContextOk() && !c.IsEmpty() && ChunkGrows(chunk, c)
  {
    chunk.PushKeepsContextOk(text);
    hide UpdateFileChunk.ContextOk;
  }

  lemma LastChunkOk(chunks: seq<UpdateFileChunk>)
    requires ChunksValid(chunks)
    ensures (if chunks == [] then EMPTY_CHUNK else chunks[|chunks| - 1]).ContextOk()
  {
    EmptyChunkOk(None);
    hide UpdateFileChunk.ContextOk;
  }

  lemma DiffLineKeeps(chunks: seq<UpdateFileChunk>, line: string)
    requires ChunksValid(chunks) && (chunks != [] ==> !chunks[|chunks| - 1].isEndOfFile)
    ensures var after := AfterDiffLine(chunks, line);
      after.Some? ==> ChunksValid(after.value) && ChunksGrow(chunks, after.value)
  {
    hide UpdateFileChunk.ContextOk, UpdateFileChunk.IsEmpty, ChunksValid, ChunksGrow, ChunkGrows,
         UpdateFileChunk.PushContextLine, UpdateFileChunk.PushAdded, UpdateFileChunk.PushRemoved;
    var chunk := if chunks == [] then EMPTY_CHUNK else chunks[|chunks| - 1];
    var text := if line == "" then "" else line[1..];
    LastChunkOk(chunks);
    PushesGrow(chunk, text);
    ReplacedIf(chunks, chunk, chunk.PushContextLine(text));
    ReplacedIf(chunks, chunk, chunk.PushAdded(text));
    ReplacedIf(chunks, chunk, chunk.PushRemoved(text));
  }

  lemma ReplacedIf(chunks: seq<UpdateFileChunk>, chunk: UpdateFileChunk, pushed: UpdateFileChunk)
    requires ChunksValid(chunks) && chunk == (if chunks == [] then EMPTY_CHUNK else chunks[|chunks| - 1])
    requires pushed.ContextOk() && !pushed.IsEmpty() && ChunkGrows(chunk, pushed)
    ensures var front := if chunks == [] then [] else chunks[..|chunks| - 1];
      ChunksValid(front + [pushed]) && ChunksGrow(chunks, front + [pushed])
  {
    ReplacedChunk(chunks, pushed);
  }

  lemma UpdateLineKeeps(hunk: Hunk, line: string, lineNumber: nat)
    requires hunk.UpdateFile? && HunkValid(hunk)
    ensures var r := AfterUpdateLine(hunk, line, lineNumber);
      r.Ok? ==> HunkValid(r.value) && HunkGrows(hunk, r.value)
  {
    hide TrimEnd, MarkerOf, AfterDiffLine, ChunksValid, ChunksGrow;
    var r, chunks := AfterUpdateLine(hunk, line, lineNumber), hunk.chunks;
    var marker := MarkerOf(TrimEnd(line));
    if r.Ok? {
      SameChunksGrow(chunks);
      if marker.Context? {
        ChunkOpenedIf(chunks, marker.context);
      } else if marker.EndOfFile? && chunks != [] {
        FlaggedKeeps(chunks);
      } else if chunks == [] || !chunks[|chunks| - 1].isEndOfFile {
        DiffLineKeeps(chunks, line);
      }
    }
  }

  lemma SameChunksGrow(chunks: seq<UpdateFileChunk>)
    ensures ChunksGrow(chunks, chunks)
  {
  }

  lemma ChunkOpenedIf(chunks: seq<UpdateFileChunk>, context: Option<string>)
    requires ChunksValid(chunks)
    ensures var after := chunks + [EMPTY_CHUNK.(changeContext := context)];
      (chunks == [] || !chunks[|chunks| - 1].IsEmpty()) ==> ChunksValid(after) && ChunksGrow(chunks, after)
  {
    hide ChunksValid, ChunksGrow;
    if chunks == [] || !chunks[|chunks| - 1].IsEmpty() {
      ChunkOpened(chunks, context);
    }
  }

  lemma FlaggedKeeps(chunks: seq<UpdateFileChunk>)
    requires ChunksValid(chunks) && chunks != []
    ensures var last := chunks[|chunks| - 1];
      var after := chunks[..|chunks| - 1] + [last.(isEndOfFile := true)];
      !last.IsEmpty() && !last.isEndOfFile ==> ChunksValid(after) && ChunksGrow(chunks, after)
  {
    var last := chunks[|chunks| - 1];
    if !last.IsEmpty() && !last.isEndOfFile {
      assert last.ContextOk() && last.(isEndOfFile := true).ContextOk();
      hide UpdateFileChunk.ContextOk;
      ReplacedChunk(chunks, last.(isEndOfFile := true));
    }
  }

  lemma BodyLineKeeps(s: State, line: string)
    requires Valid(s)
    ensures var r := AfterBodyLine(s, line);
      r.Ok? ==> Valid(r.value) && Grows(s, r.value)
  {
    hide AfterUpdateLine, Grows;
    if s.hunks != [] {
      var last := s.hunks[|s.hunks| - 1];
      assert HunkValid(last);
      if s.mode.InAddFile? && line != "" && line[0] == '+' {
        hide Valid;
        WithLastKeeps(s, last.(contents := last.contents + line[1..] + "\n"));
      } else if s.mode.InUpdateFile? {
        hide Valid, HunkValid;
        UpdateLineKeeps(last, line, s.lineNumber);
        var r := AfterUpdateLine(last, line, s.lineNumber);
        if r.Ok? {
          WithLastKeeps(s, r.value);
        }
      }
    }
  }

  lemma LineKeeps(s: State, line: string)
    requires Valid(s) && 0 < s.lineNumber
    ensures var r := AfterLine(s, line);
      r.Ok? ==> Valid(r.value) && Grows(s, r.value)
  {
    hide AfterHeader, AfterBodyLine, Trim, TrimEnd, Grows, HunkValid, Complete;
    var r := AfterLine(s, line);
    if r.Ok? {
      if s.mode.NotStarted? || s.mode.EndedPatch? {
        GrowsInPlace(s, r.value);
      } else {
        hide Valid;
        HeaderKeeps(s, if s.mode.InUpdateFile? then TrimEnd(line) else Trim(line));
        BodyLineKeeps(s, line);
      }
    }
  }

  lemma FeedLineKeeps(s: State, line: string)
    requires Valid(s)
    ensures Valid(FeedLine(s, line).at.state) && Grows(s, FeedLine(s, line).at.state)
  {
    hide AfterLine, HunkValid, Complete;
    var numbered := s.(lineNumber := s.lineNumber + 1);
    assert Valid(numbered);
    hide Valid;
    GrowsInPlace(s, numbered);
    hide Grows;
    LineKeeps(numbered, line);
    var r := AfterLine(numbered, line);
    if r.Ok? {
      GrowsTransitive(s, numbered, r.value);
    }
  }

  /** Every state a run reaches is valid, and everything but its last hunk's end is final. */
  lemma {:induction false} RunsKeep(p: Snapshot, text: string)
    requires Valid(p.state)
    ensures Valid(Feed(p, text).at.state) && Grows(p.state, Feed(p, text).at.state)
    decreases |text|
  {
    hide Valid, Grows, FeedLine, StripCr;
    GrowsInPlace(p.state, p.state);
    if text != "" {
      var fed := FeedChar(p, text[0]);
      if text[0] == '\n' {
        FeedLineKeeps(p.state, StripCr(p.buffer));
      }
      if fed.error.None? {
        RunsKeep(fed.at, text[1..]);
        GrowsTransitive(p.state, fed.at.state, Feed(fed.at, text[1..]).at.state);
      }
    }
  }

  lemma StartIsValid()
    ensures Valid(START)
  {
  }

  ghost predicate AllComplete(hunks: seq<Hunk>) {
    forall i :: 0 <= i < |hunks| ==> HunkValid(hunks[i]) && Complete(hunks[i])
  }

  lemma EndedIsComplete(s: State)
    requires Valid(s) && s.mode.EndedPatch?
    ensures AllComplete(s.hunks)
  {
    hide HunkValid, Complete;
  }

  /** A run that finishes well leaves every update hunk with chunks, and every chunk with lines. */
  lemma FinishedIsComplete(p: Snapshot)
    requires Valid(p.state)
    ensures var fed := Finished(p);
      && Valid(fed.at.state) && Grows(p.state, fed.at.state)
      && (fed.error.None? ==> fed.at.state.mode.EndedPatch? && AllComplete(fed.at.state.hunks))
  {
    hide FeedRest, Valid, AllComplete, Grows;
    RestKeeps(p);
    var fed := FeedRest(p);
    if fed.at.state.mode.EndedPatch? {
      EndedIsComplete(fed.at.state);
    }
  }

  lemma RestKeeps(p: Snapshot)
    requires Valid(p.state)
    ensures Valid(FeedRest(p).at.state) && Grows(p.state, FeedRest(p).at.state)
  {
    hide FeedLine, Trim, Grows, HunkValid, Complete;
    GrowsInPlace(p.state, p.state);
    if p.buffer != "" && Trim(p.buffer) == END_PATCH {
      var numbered := p.state.(lineNumber := p.state.lineNumber + 1);
      assert Valid(numbered);
      CheckKeepsState(numbered);
      hide CheckNotEmpty;
      GrowsInPlace(p.state, numbered);
      if CheckNotEmpty(numbered).Ok? {
        LastIsComplete(numbered);
        GrowsInPlace(p.state, numbered.(mode := EndedPatch));
      }
    } else {
      FeedLineKeeps(p.state, p.buffer);
    }
  }
}
