/** One line more: the parser, the lines and the grammar keep in step. */
module GrammarSteps {
  import opened Text
  import opened Patch
  import opened StreamingParser
  import opened PatchGrammar

  // ---------------------------------------------------------------- lists that grow at the end

  lemma Snoc<T>(front: seq<T>, last: T)
    ensures (front + [last])[..|front + [last]| - 1] == front && (front + [last])[|front + [last]| - 1] == last
  {
  }

  lemma FrontAndLast<T>(s: seq<T>)
    requires s != []
    ensures s == s[..|s| - 1] + [s[|s| - 1]]
  {
  }

  lemma ChunksYieldSnoc(front: seq<ChunkText>, c: ChunkText)
    ensures ChunksYield(front + [c]) == ChunksYield(front) + ChunkYield(c)
    ensures ChunksOf(front + [c]) == ChunksOf(front) + [ChunkOf(c)]
  {
    hide ChunkYield, ChunkOf;
    Snoc(front, c);
  }

  lemma HunksYieldSnoc(front: seq<HunkText>, h: HunkText)
    ensures HunksYield(front + [h]) == HunksYield(front) + HunkYield(h)
    ensures HunksOf(front + [h]) == HunksOf(front) + [HunkOf(h)]
  {
    hide HunkYield, HunkOf;
    Snoc(front, h);
  }

  lemma {:induction false} ChunksOfLength(chunks: seq<ChunkText>)
    ensures |ChunksOf(chunks)| == |chunks|
  {
    hide ChunkOf;
    if chunks != [] {
      ChunksOfLength(chunks[..|chunks| - 1]);
    }
  }

  lemma {:induction false} HunksOfLength(hunks: seq<HunkText>)
    ensures |HunksOf(hunks)| == |hunks|
  {
    hide HunkOf;
    if hunks != [] {
      HunksOfLength(hunks[..|hunks| - 1]);
    }
  }

  lemma LastChunk(chunks: seq<ChunkText>)
    requires chunks != []
    ensures var cs := ChunksOf(chunks);
      && |cs| == |chunks| && cs[..|cs| - 1] == ChunksOf(chunks[..|chunks| - 1])
      && cs[|cs| - 1] == ChunkOf(chunks[|chunks| - 1])
  {
    hide ChunkOf;
    ChunksOfLength(chunks);
    FrontAndLast(chunks);
    ChunksYieldSnoc(chunks[..|chunks| - 1], chunks[|chunks| - 1]);
  }

  lemma LastHunk(hunks: seq<HunkText>)
    requires hunks != []
    ensures var hs := HunksOf(hunks);
      && |hs| == |hunks| && hs[..|hs| - 1] == HunksOf(hunks[..|hunks| - 1])
      && hs[|hs| - 1] == HunkOf(hunks[|hunks| - 1])
  {
    hide HunkOf;
    HunksOfLength(hunks);
    FrontAndLast(hunks);
    HunksYieldSnoc(hunks[..|hunks| - 1], hunks[|hunks| - 1]);
  }

  // ---------------------------------------------------------------- diff lines

  lemma DiffSnoc(diff: seq<string>, line: string)
    requires IsDiff(line)
    ensures var c, d := ChunkOf(ChunkText(None, None, diff, [])), ChunkOf(ChunkText(None, None, diff + [line], []));
      d == if line == "" then c.PushContextLine("")
           else if line[0] == ' ' then c.PushContextLine(line[1..])
           else if line[0] == '+' then c.PushAdded(line[1..])
           else c.PushRemoved(line[1..])
  {
    Snoc(diff, line);
  }

  lemma {:induction false} DiffIsNotEmpty(diff: seq<string>)
    ensures OldTexts(diff) == [] && NewTexts(diff) == [] <==> diff == []
  {
    if diff != [] {
      var line := diff[|diff| - 1];
      assert !(line != "" && line[0] == '+') || !(line != "" && line[0] == '-');
    }
  }

  lemma ChunkIsEmpty(c: ChunkText)
    ensures ChunkOf(c).IsEmpty() <==> c.diff == []
  {
    DiffIsNotEmpty(c.diff);
  }

  lemma {:induction false} DiffPushes(chunks: seq<ChunkText>, line: string)
    requires chunks != [] && IsDiff(line) && chunks[|chunks| - 1].ending == []
    ensures var front, c := chunks[..|chunks| - 1], chunks[|chunks| - 1];
      AfterDiffLine(ChunksOf(chunks), line) == Some(ChunksOf(front + [c.(diff := c.diff + [line])]))
  {
    var front, c := chunks[..|chunks| - 1], chunks[|chunks| - 1];
    LastChunk(chunks);
    ChunksYieldSnoc(front, c.(diff := c.diff + [line]));
    DiffSnoc(c.diff, line);
    hide ChunksOf, OldTexts, NewTexts, Pairs;
  }

  lemma {:induction false} FirstDiffPushes(line: string)
    requires IsDiff(line)
    ensures AfterDiffLine([], line) == Some(ChunksOf([ChunkText(None, None, [line], [])]))
  {
    ChunksYieldSnoc([], ChunkText(None, None, [line], []));
    assert [] + [ChunkText(None, None, [line], [])] == [ChunkText(None, None, [line], [])] && [] + [line] == [line];
    DiffSnoc([], line);
    assert ChunksOf([]) == [] && ChunkOf(ChunkText(None, None, [], [])) == EMPTY_CHUNK;
    hide ChunksOf, OldTexts, NewTexts, Pairs;
  }

  lemma NotDiff(chunks: seq<UpdateFileChunk>, line: string)
    requires !IsDiff(line)
    ensures AfterDiffLine(chunks, line) == None
  {
  }

  // ---------------------------------------------------------------- what lines are

  /** Which marker a trimmed line is, in the grammar's own words. */
  lemma MarkerIs(trimmed: string)
    ensures var m := MarkerOf(trimmed);
      && (m.EndOfFile? <==> trimmed == "*** End of File")
      && (m.MoveTo? <==> "*** Move to: " <= trimmed)
      && (m.MoveTo? ==> m.path == trimmed[|"*** Move to: "|..])
      && (m.Context? <==> trimmed == "@@" || "@@ " <= trimmed)
      && (m.Context? ==> m.context == if trimmed == "@@" then None else Some(trimmed[3..]))
  {
    assert MOVE_TO[4] == 'M' && MOVE_TO[0] == '*' && END_OF_FILE[4] == 'E';
    if "@@ " <= trimmed {
      assert trimmed[0] == '@';
    }
  }

  lemma HeaderIs(trimmed: string, first: bool)
    ensures var h := HeaderOf(trimmed, first);
      && (h.EnvironmentId? <==> first && "*** Environment ID:" <= trimmed)
      && (h.EnvironmentId? ==> h.text == trimmed[|"*** Environment ID:"|..])
      && (h.EndOfPatch? <==> trimmed == "*** End Patch")
      && (h.Add? <==> "*** Add File: " <= trimmed) && (h.Add? ==> h.path == trimmed[|"*** Add File: "|..])
      && (h.Delete? <==> "*** Delete File: " <= trimmed) && (h.Delete? ==> h.path == trimmed[|"*** Delete File: "|..])
      && (h.Update? <==> "*** Update File: " <= trimmed) && (h.Update? ==> h.path == trimmed[|"*** Update File: "|..])
  {
    assert END_PATCH[4] == 'E' && END_PATCH[5] == 'n' && ENVIRONMENT_ID[4] == 'E' && |END_PATCH| < |ENVIRONMENT_ID|;
    assert ADD_FILE[4] == 'A' && DELETE_FILE[4] == 'D' && UPDATE_FILE[4] == 'U';
  }

  lemma NoPrefix(prefix: string, s: string)
    requires prefix != "" && (s == "" || s[0] != prefix[0])
    ensures !(prefix <= s)
  {
  }

  lemma DiffIsNoMarker(line: string)
    requires IsDiff(line)
    ensures var trimmed := TrimEnd(line);
      && MarkerOf(trimmed) == NotAMarker && HeaderOf(trimmed, false) == NotAHeader
      && trimmed != "*** End of File" && trimmed != "@@" && !("@@ " <= trimmed) && !("*** Move to: " <= trimmed)
  {
    var trimmed := TrimEnd(line);
    assert trimmed == "" || trimmed[0] == line[0];
    hide TrimEnd;
    assert END_PATCH[0] == '*' && ADD_FILE[0] == '*' && DELETE_FILE[0] == '*' && UPDATE_FILE[0] == '*';
    assert MOVE_TO[0] == '*' && END_OF_FILE[0] == '*' && CHANGE_CONTEXT[0] == '@' && EMPTY_CHANGE_CONTEXT[0] == '@';
    NoPrefix("@@ ", trimmed);
    NoPrefix("*** Move to: ", trimmed);
  }

  // ---------------------------------------------------------------- a line of an update hunk

  /** What the grammar has no place for in an update hunk, the parser refuses; else both go on alike. */
  lemma {:induction false} UpdateStep(h: HunkText, line: string, lineNumber: nat)
    requires h.UpdateText? && ChunksFit(h.chunks) && (h.movePath.Some? <==> h.move.Some?)
    ensures var r := AfterUpdateLine(HunkOf(h), line, lineNumber);
      match ExtendUpdate(h, line)
      case None => r == Err(InvalidHunk(lineNumber))
      case Some(g) => r == Ok(HunkOf(g))
  {
    hide AfterUpdateLine, ExtendUpdate, HunkOf;
    if h.chunks == [] {
      FreshStep(h, line, lineNumber);
    } else {
      ChunkStep(h, line, lineNumber);
    }
  }

  lemma NoChunks()
    ensures ChunksOf([]) == []
  {
  }

  lemma {:induction false} FreshStep(h: HunkText, line: string, lineNumber: nat)
    requires h.UpdateText? && h.chunks == []
    requires h.movePath.Some? <==> h.move.Some?
    ensures var r := AfterUpdateLine(HunkOf(h), line, lineNumber);
      match ExtendUpdate(h, line)
      case None => r == Err(InvalidHunk(lineNumber))
      case Some(g) => r == Ok(HunkOf(g))
  {
    hide MarkerOf, AfterDiffLine, TrimEnd, ChunksOf, IsDiff, Opened;
    var trimmed := TrimEnd(line);
    MarkerIs(trimmed);
    NoChunks();
    if IsDiff(line) {
      DiffIsNoMarker(line);
      FirstDiffPushes(line);
    } else {
      NotDiff([], line);
    }
    OpenedChunk([], line);
    assert [] + [Opened(line)] == [Opened(line)];
  }

  lemma {:induction false} OpenedChunk(chunks: seq<ChunkText>, line: string)
    ensures var trimmed := TrimEnd(line);
      trimmed == "@@" || "@@ " <= trimmed ==>
        ChunksOf(chunks + [Opened(line)])
        == ChunksOf(chunks) + [EMPTY_CHUNK.(changeContext := if trimmed == "@@" then None else Some(trimmed[3..]))]
  {
    ChunksYieldSnoc(chunks, Opened(line));
    hide TrimEnd, ChunksOf;
  }

  lemma {:induction false} ChunkStep(h: HunkText, line: string, lineNumber: nat)
    requires h.UpdateText? && h.chunks != [] && ChunksFit(h.chunks)
    ensures var r := AfterUpdateLine(HunkOf(h), line, lineNumber);
      match ExtendUpdate(h, line)
      case None => r == Err(InvalidHunk(lineNumber))
      case Some(g) => r == Ok(HunkOf(g))
  {
    var c := h.chunks[|h.chunks| - 1];
    hide AfterUpdateLine, ExtendUpdate, HunkOf, IsDiff, ChunksFit;
    if c.ending != [] {
      EndedStep(h, line, lineNumber);
    } else if IsDiff(line) {
      DiffStep(h, line, lineNumber);
    } else {
      MarkStep(h, line, lineNumber);
    }
  }

  lemma {:induction false} EndedStep(h: HunkText, line: string, lineNumber: nat)
    requires h.UpdateText? && h.chunks != [] && ChunksFit(h.chunks)
    requires h.chunks[|h.chunks| - 1].ending != []
    ensures var r := AfterUpdateLine(HunkOf(h), line, lineNumber);
      match ExtendUpdate(h, line)
      case None => r == Err(InvalidHunk(lineNumber))
      case Some(g) => r == Ok(HunkOf(g))
  {
    hide MarkerOf, AfterDiffLine, TrimEnd, ChunksOf, IsDiff, Opened, ChunkOf, UpdateFileChunk.IsEmpty;
    var front, c := h.chunks[..|h.chunks| - 1], h.chunks[|h.chunks| - 1];
    assert ChunkFits(c);
    hide ChunkFits;
    MarkerIs(TrimEnd(line));
    LastChunk(h.chunks);
    ChunkIsEmpty(c);
    OpenedChunk(h.chunks, line);
    ChunksYieldSnoc(front, c.(ending := c.ending + [line]));
    EndingOnly(c, line);
    FrontAndLast(ChunksOf(h.chunks));
  }

  lemma DiffLineExtends(chunks: seq<ChunkText>, line: string)
    requires chunks != [] && chunks[|chunks| - 1].ending == [] && IsDiff(line)
    ensures var c := chunks[|chunks| - 1];
      ExtendChunks(chunks, line) == Some(chunks[..|chunks| - 1] + [c.(diff := c.diff + [line])])
  {
    DiffIsNoMarker(line);
    hide TrimEnd, IsDiff, MarkerOf, HeaderOf;
  }

  lemma DiffParses(hunk: Hunk, line: string, lineNumber: nat)
    requires hunk.UpdateFile? && hunk.chunks != [] && !hunk.chunks[|hunk.chunks| - 1].isEndOfFile
    requires MarkerOf(TrimEnd(line)) == NotAMarker && AfterDiffLine(hunk.chunks, line).Some?
    ensures AfterUpdateLine(hunk, line, lineNumber) == Ok(hunk.(chunks := AfterDiffLine(hunk.chunks, line).value))
  {
    hide TrimEnd, MarkerOf, AfterDiffLine;
  }

  lemma {:induction false} DiffStep(h: HunkText, line: string, lineNumber: nat)
    requires h.UpdateText? && h.chunks != [] && ChunksFit(h.chunks)
    requires h.chunks[|h.chunks| - 1].ending == [] && IsDiff(line)
    ensures var r := AfterUpdateLine(HunkOf(h), line, lineNumber);
      match ExtendUpdate(h, line)
      case None => r == Err(InvalidHunk(lineNumber))
      case Some(g) => r == Ok(HunkOf(g))
  {
    hide AfterUpdateLine, ExtendChunks, MarkerOf, AfterDiffLine, TrimEnd, ChunksOf, IsDiff, Opened, ChunkOf, ChunkFits,
         ChunksFit, UpdateFileChunk.IsEmpty;
    LastChunk(h.chunks);
    EndingOnly(h.chunks[|h.chunks| - 1], line);
    DiffIsNoMarker(line);
    DiffPushes(h.chunks, line);
    DiffLineExtends(h.chunks, line);
    DiffParses(HunkOf(h), line, lineNumber);
  }

  lemma MarkParses(hunk: Hunk, line: string, lineNumber: nat)
    requires hunk.UpdateFile? && hunk.chunks != [] && !hunk.chunks[|hunk.chunks| - 1].isEndOfFile
    requires AfterDiffLine(hunk.chunks, line).None?
    ensures var m := MarkerOf(TrimEnd(line));
      var front, c := hunk.chunks[..|hunk.chunks| - 1], hunk.chunks[|hunk.chunks| - 1];
      AfterUpdateLine(hunk, line, lineNumber) ==
        if !(m.Context? || m.EndOfFile?) || c.IsEmpty() then Err(InvalidHunk(lineNumber))
        else if m.Context? then Ok(hunk.(chunks := hunk.chunks + [EMPTY_CHUNK.(changeContext := m.context)]))
        else Ok(hunk.(chunks := front + [c.(isEndOfFile := true)]))
  {
    hide TrimEnd, MarkerOf, AfterDiffLine, UpdateFileChunk.IsEmpty;
  }

  lemma {:induction false} MarkStep(h: HunkText, line: string, lineNumber: nat)
    requires h.UpdateText? && h.chunks != [] && ChunksFit(h.chunks)
    requires h.chunks[|h.chunks| - 1].ending == [] && !IsDiff(line)
    ensures var r := AfterUpdateLine(HunkOf(h), line, lineNumber);
      match ExtendUpdate(h, line)
      case None => r == Err(InvalidHunk(lineNumber))
      case Some(g) => r == Ok(HunkOf(g))
  {
    hide AfterUpdateLine, MarkerOf, AfterDiffLine, TrimEnd, ChunksOf, IsDiff, Opened, ChunkOf, ChunkFits, ChunksFit,
         UpdateFileChunk.IsEmpty;
    var front, c := h.chunks[..|h.chunks| - 1], h.chunks[|h.chunks| - 1];
    MarkerIs(TrimEnd(line));
    LastChunk(h.chunks);
    ChunkIsEmpty(c);
    OpenedChunk(h.chunks, line);
    ChunksYieldSnoc(front, c.(ending := [line]));
    EndingOnly(c, line);
    NotDiff(ChunksOf(h.chunks), line);
    MarkParses(HunkOf(h), line, lineNumber);
  }

  lemma EndingOnly(c: ChunkText, line: string)
    ensures ChunkOf(c.(ending := [line])) == ChunkOf(c).(isEndOfFile := true)
    ensures c.ending != [] ==> ChunkOf(c.(ending := c.ending + [line])) == ChunkOf(c)
    ensures ChunkOf(c).isEndOfFile <==> c.ending != []
  {
  }

  // ---------------------------------------------------------------- a line of a patch

  function Numbered(s: State): State {
    s.(lineNumber := s.lineNumber + 1)
  }

  /** The emptiness check passes if and only if the last hunk has all it needs. */
  lemma {:induction false} CheckStep(t: PatchTree, s: State)
    requires t.begin.Some? && t.closing == [] && HunksFit(t.hunks)
    requires s.hunks == HunksOf(t.hunks) && s.mode == ModeOf(t)
    ensures CheckNotEmpty(s)
            == if LastWhole(t.hunks) then Ok(s)
               else Err(InvalidHunk(if BehindUpdate(t.hunks) && t.hunks[|t.hunks| - 1].chunks == [] then HeaderLine(t)
                                    else s.lineNumber))
  {
    hide HeaderLine, HunksOf, HunkOf, HunksFit, UpdateFileChunk.IsEmpty;
    if t.hunks == [] {
      NoHunks();
    } else {
      LastHunk(t.hunks);
      KindOf(t.hunks[|t.hunks| - 1]);
    }
  }

  lemma NoHunks()
    ensures HunksOf([]) == []
  {
  }

  lemma {:induction false} KindOf(h: HunkText)
    ensures var hunk := HunkOf(h);
      && (hunk.UpdateFile? <==> h.UpdateText?)
      && (h.UpdateText? ==>
           && (hunk.chunks == [] <==> h.chunks == [])
           && (h.chunks != [] ==>
                (hunk.chunks[|hunk.chunks| - 1].IsEmpty() <==> h.chunks[|h.chunks| - 1].diff == [])))
  {
    if h.UpdateText? {
      ChunksOfLength(h.chunks);
      if h.chunks != [] {
        LastChunk(h.chunks);
        ChunkIsEmpty(h.chunks[|h.chunks| - 1]);
      }
    }
    hide ChunksOf, ChunkOf, UpdateFileChunk.IsEmpty;
  }

  /** The error for a line the grammar has no place for. */
  function ErrorAt(t: PatchTree, line: string): ParseError {
    if t.begin.None? || t.closing != [] then InvalidPatch
    else
      var trimmed := Cut(line, BehindUpdate(t.hunks));
      if t.hunks == [] && "*** Environment ID:" <= trimmed then InvalidPatch
      else if (trimmed == "*** End Patch" || OpenedBy(line, trimmed).Some?)
              && BehindUpdate(t.hunks) && t.hunks[|t.hunks| - 1].chunks == [] then InvalidHunk(HeaderLine(t))
      else InvalidHunk(|Yield(t)| + 1)
  }

  lemma CutIsCut(t: PatchTree, line: string)
    requires t.begin.Some? && t.closing == []
    ensures Cut(line, BehindUpdate(t.hunks)) == if ModeOf(t).InUpdateFile? then TrimEnd(line) else Trim(line)
    ensures t.hunks == [] <==> ModeOf(t).StartedPatch?
  {
    hide TrimEnd, Trim, HeaderLine;
  }

  lemma {:induction false} BodyStep(t: PatchTree, line: string)
    requires t.begin.Some? && t.closing == [] && HunksFit(t.hunks)
    ensures var r := AfterBodyLine(Numbered(StateOf(t)), line);
      if t.hunks == [] then r == Err(InvalidHunk(|Yield(t)| + 1))
      else
        match ExtendBody(t.hunks[|t.hunks| - 1], line)
        case None => r == Err(InvalidHunk(|Yield(t)| + 1))
        case Some(h) => r == Ok(Numbered(StateOf(t)).(hunks := HunksOf(t.hunks[..|t.hunks| - 1] + [h])))
  {
    hide HeaderLine, Yield, ExtendBody, HunksFit, HunksOf, HunkOf, AfterBodyLine;
    if t.hunks == [] {
      NoHunks();
      NoBody(Numbered(StateOf(t)), line);
    } else {
      var front, h := t.hunks[..|t.hunks| - 1], t.hunks[|t.hunks| - 1];
      LastHunk(t.hunks);
      FrontAndLast(HunksOf(t.hunks));
      LastFits(t.hunks);
      BodyLine(Numbered(StateOf(t)), HunksOf(front), h, line);
      var extended := ExtendBody(h, line);
      if extended.Some? {
        HunksYieldSnoc(front, extended.value);
      }
    }
  }

  lemma NoBody(s: State, line: string)
    requires s.hunks == []
    ensures AfterBodyLine(s, line) == Err(InvalidHunk(s.lineNumber))
  {
  }

  predicate ModeFits(mode: Mode, h: HunkText) {
    match h
    case AddText(_, _, _) => mode.InAddFile?
    case DeleteText(_, _) => mode.InDeleteFile?
    case UpdateText(_, _, _, _, _, _, _) => mode.InUpdateFile?
  }

  lemma {:induction false} BodyLine(s: State, front: seq<Hunk>, h: HunkText, line: string)
    requires s.hunks == front + [HunkOf(h)] && ModeFits(s.mode, h)
    requires h.UpdateText? ==> ChunksFit(h.chunks) && (h.movePath.Some? <==> h.move.Some?)
    ensures var r := AfterBodyLine(s, line);
      match ExtendBody(h, line)
      case None => r == Err(InvalidHunk(s.lineNumber))
      case Some(g) => r == Ok(s.(hunks := front + [HunkOf(g)]))
  {
    assert s.hunks[|s.hunks| - 1] == HunkOf(h) && s.hunks[..|s.hunks| - 1] == front;
    hide AfterUpdateLine, ExtendUpdate, ChunksFit;
    if h.UpdateText? {
      UpdateStep(h, line, s.lineNumber);
    } else if h.AddText? && line != "" && line[0] == '+' {
      AddedStep(h.header, h.path, h.body, line);
    }
    hide ChunksOf, ContentsOf;
  }

  lemma LastFits(hunks: seq<HunkText>)
    requires HunksFit(hunks) && hunks != []
    ensures var h := hunks[|hunks| - 1];
      h.UpdateText? ==> ChunksFit(h.chunks) && (h.movePath.Some? <==> h.move.Some?)
  {
    hide HeaderFits, AllEndOfFile, ChunksFit, TrimEnd;
  }

  lemma AddedStep(header: string, path: string, body: seq<string>, line: string)
    requires line != "" && line[0] == '+'
    ensures HunkOf(AddText(header, path, body + [line])) == AddFile(path, ContentsOf(body) + line[1..] + "\n")
  {
    Snoc(body, line);
  }

  /** The parser takes exactly the lines the grammar has a place for, and else gives the stated error. */
  ghost predicate InStep(t: PatchTree, line: string) {
    FeedLine(StateOf(t), line) ==
      match Extend(t, line)
      case Some(u) => Fed(Snapshot("", StateOf(u)), None)
      case None => Fed(Snapshot("", Numbered(StateOf(t))), Some(ErrorAt(t, line)))
  }

  /** The tree with the line has the line, and the state of the parser behind it. */
  ghost predicate Takes(t: PatchTree, line: string, u: PatchTree) {
    Yield(u) == Yield(t) + [line]
  }

  lemma {:induction false} OuterStep(t: PatchTree, line: string)
    requires Fits(t) && (t.begin.None? || t.closing != [])
    requires Extend(t, line).Some? ==> Takes(t, line, Extend(t, line).value)
    ensures InStep(t, line)
  {
    hide Yield, HunksOf, HeaderLine, HunksFit, Trim;
    if t.begin.None? {
      NoHunks();
    }
  }

  lemma OpenState(t: PatchTree, line: string, g: HunkText)
    requires t.begin.Some? && t.closing == [] && Takes(t, line, t.(hunks := t.hunks + [g]))
    ensures StateOf(t.(hunks := t.hunks + [g])) == Numbered(StateOf(t)).Open(HunkOf(g), OpenMode(g, |Yield(t)| + 1))
  {
    HunksYieldSnoc(t.hunks, g);
    Snoc(t.hunks, g);
    hide HunksYield, HunksOf, HunkOf;
  }

  lemma BodyState(t: PatchTree, line: string, g: HunkText)
    requires t.begin.Some? && t.closing == [] && t.hunks != []
    requires ModeFits(ModeOf(t), g)
    requires Takes(t, line, t.(hunks := t.hunks[..|t.hunks| - 1] + [g]))
    ensures var hunks := t.hunks[..|t.hunks| - 1] + [g];
      StateOf(t.(hunks := hunks)) == Numbered(StateOf(t)).(hunks := HunksOf(hunks))
  {
    hide HunksYield, HunksOf, Yield, ModeOf, ModeFits;
    ModeStays(t, g);
  }

  lemma ModeStays(t: PatchTree, g: HunkText)
    requires t.begin.Some? && t.closing == [] && t.hunks != [] && ModeFits(ModeOf(t), g)
    ensures ModeOf(t.(hunks := t.hunks[..|t.hunks| - 1] + [g])) == ModeOf(t)
  {
    Snoc(t.hunks[..|t.hunks| - 1], g);
    hide HunksYield;
  }

  lemma BodyKind(h: HunkText, line: string)
    ensures var g := ExtendBody(h, line);
      g.Some? ==> (g.value.AddText? <==> h.AddText?) && (g.value.DeleteText? <==> h.DeleteText?)
  {
    hide ExtendChunks, TrimEnd;
  }

  lemma OtherState(t: PatchTree, line: string, id: string)
    requires t.begin.Some? && t.closing == []
    ensures t.hunks == [] && Takes(t, line, t.(environment := Some(line), environmentId := Some(id))) ==>
      StateOf(t.(environment := Some(line), environmentId := Some(id)))
      == Numbered(StateOf(t)).(environmentId := Some(id))
    ensures Takes(t, line, t.(closing := [line])) ==>
      StateOf(t.(closing := [line])) == Numbered(StateOf(t)).(mode := EndedPatch)
  {
    hide HunksYield, HunksOf, Yield;
  }

  /** What one line does inside a patch. */
  function Inner(s: State, line: string, trimmed: string): Result<State, ParseError> {
    match AfterHeader(s, trimmed)
    case Err(e) => Err(e)
    case Ok(Some(next)) => Ok(next)
    case Ok(None) => AfterBodyLine(s, line)
  }

  lemma InnerLine(t: PatchTree, line: string)
    requires t.begin.Some? && t.closing == []
    ensures AfterLine(Numbered(StateOf(t)), line) == Inner(Numbered(StateOf(t)), line, Cut(line, BehindUpdate(t.hunks)))
  {
    CutIsCut(t, line);
    hide Cut, AfterHeader, AfterBodyLine, Trim, TrimEnd, HunksOf, Yield, HeaderLine;
  }

  /** The state machine and the grammar agree on a line inside a patch. */
  ghost predicate Agrees(t: PatchTree, line: string) {
    Inner(Numbered(StateOf(t)), line, Cut(line, BehindUpdate(t.hunks)))
    == match Extend(t, line) case Some(u) => Ok(StateOf(u)) case None => Err(ErrorAt(t, line))
  }

  lemma IdExtend(t: PatchTree, line: string)
    requires t.begin.Some? && t.closing == [] && t.hunks == [] && "*** Environment ID:" <= Cut(line, false)
    ensures var id := Trim(Cut(line, false)[|"*** Environment ID:"|..]);
      && ErrorAt(t, line) == InvalidPatch
      && Extend(t, line) == if t.environment.None? && id != ""
                            then Some(t.(environment := Some(line), environmentId := Some(id))) else None
  {
    hide Cut, Trim, HeaderLine, Yield;
  }

  lemma IdInner(s: State, line: string, trimmed: string)
    requires s.mode.StartedPatch? && "*** Environment ID:" <= trimmed
    ensures var id := Trim(trimmed[|"*** Environment ID:"|..]);
      Inner(s, line, trimmed) == if s.environmentId.Some? || id == "" then Err(InvalidPatch)
                                 else Ok(s.(environmentId := Some(id)))
  {
    HeaderIs(trimmed, true);
    hide HeaderOf, Trim, CheckNotEmpty;
  }

  lemma {:induction false} IdCase(t: PatchTree, line: string)
    requires t.begin.Some? && t.closing == [] && (t.environment.Some? <==> t.environmentId.Some?)
    requires Extend(t, line).Some? ==> Takes(t, line, Extend(t, line).value)
    requires t.hunks == [] && "*** Environment ID:" <= Cut(line, false)
    ensures Agrees(t, line)
  {
    IdExtend(t, line);
    IdInner(Numbered(StateOf(t)), line, Cut(line, false));
    OtherState(t, line, Trim(Cut(line, false)[|"*** Environment ID:"|..]));
    hide Cut, Trim, Inner, Extend, ErrorAt, Takes, HunksOf, Yield;
  }

  lemma EndExtend(t: PatchTree, line: string)
    requires t.begin.Some? && t.closing == [] && Cut(line, BehindUpdate(t.hunks)) == "*** End Patch"
    ensures ErrorAt(t, line) == InvalidHunk(
      if BehindUpdate(t.hunks) && t.hunks[|t.hunks| - 1].chunks == [] then HeaderLine(t) else |Yield(t)| + 1)
    ensures Extend(t, line) == if LastWhole(t.hunks) then Some(t.(closing := [line])) else None
  {
    EndIsNoId();
    hide Cut, HeaderLine, Yield;
  }

  lemma EndInner(s: State, line: string)
    ensures Inner(s, line, "*** End Patch") == match CheckNotEmpty(s)
      case Ok(checked) => Ok(checked.(mode := EndedPatch))
      case Err(e) => Err(e)
  {
    HeaderIs("*** End Patch", s.mode.StartedPatch?);
    EndIsNoId();
    hide HeaderOf, Trim, CheckNotEmpty;
  }

  lemma {:induction false} EndCase(t: PatchTree, line: string)
    requires t.begin.Some? && t.closing == [] && HunksFit(t.hunks)
    requires Extend(t, line).Some? ==> Takes(t, line, Extend(t, line).value)
    requires Cut(line, BehindUpdate(t.hunks)) == "*** End Patch"
    ensures Agrees(t, line)
  {
    EndExtend(t, line);
    EndInner(Numbered(StateOf(t)), line);
    CheckHere(t);
    OtherState(t, line, "");
    hide Cut, Inner, Extend, ErrorAt, Takes, HunksOf, Yield, CheckNotEmpty, HunksFit, HeaderLine, ModeOf;
  }

  lemma EndIsNoId()
    ensures !("*** Environment ID:" <= "*** End Patch") && OpenedBy("", "*** End Patch") == None
  {
    assert "*** End Patch"[4] == 'E' && "*** End Patch"[5] == 'n' && "*** Environment ID:"[5] == 'n';
  }

  lemma OpenExtend(t: PatchTree, line: string)
    requires t.begin.Some? && t.closing == [] && OpenedBy(line, Cut(line, BehindUpdate(t.hunks))).Some?
    ensures ErrorAt(t, line) == InvalidHunk(
      if BehindUpdate(t.hunks) && t.hunks[|t.hunks| - 1].chunks == [] then HeaderLine(t) else |Yield(t)| + 1)
    ensures Extend(t, line) ==
      if LastWhole(t.hunks) then Some(t.(hunks := t.hunks + [OpenedBy(line, Cut(line, BehindUpdate(t.hunks))).value]))
      else None
  {
    OpenIsNoOther(line, Cut(line, BehindUpdate(t.hunks)));
    hide Cut, HeaderLine, Yield, OpenedBy;
  }

  function OpenMode(g: HunkText, lineNumber: nat): Mode {
    if g.AddText? then InAddFile else if g.DeleteText? then InDeleteFile else InUpdateFile(lineNumber)
  }

  lemma OpenInner(s: State, line: string, trimmed: string)
    requires OpenedBy(line, trimmed).Some?
    ensures var g := OpenedBy(line, trimmed).value;
      Inner(s, line, trimmed) == match CheckNotEmpty(s)
        case Ok(checked) => Ok(checked.Open(HunkOf(g), OpenMode(g, s.lineNumber)))
        case Err(e) => Err(e)
  {
    HeaderIs(trimmed, s.mode.StartedPatch?);
    OpenIsNoOther(line, trimmed);
    Fresh(line, trimmed);
    hide HeaderOf, Trim, CheckNotEmpty, HunkOf;
  }

  lemma {:induction false} OpenCase(t: PatchTree, line: string)
    requires t.begin.Some? && t.closing == [] && HunksFit(t.hunks)
    requires Extend(t, line).Some? ==> Takes(t, line, Extend(t, line).value)
    requires OpenedBy(line, Cut(line, BehindUpdate(t.hunks))).Some?
    ensures Agrees(t, line)
  {
    var trimmed := Cut(line, BehindUpdate(t.hunks));
    hide *;
    OpenExtend(t, line);
    OpenInner(Numbered(StateOf(t)), line, trimmed);
    CheckHere(t);
    if LastWhole(t.hunks) {
      OpenState(t, line, OpenedBy(line, trimmed).value);
    }
    AgreesWhere(t, line);
  }

  lemma AgreesWhere(t: PatchTree, line: string)
    ensures Inner(Numbered(StateOf(t)), line, Cut(line, BehindUpdate(t.hunks)))
            == (match Extend(t, line) case Some(u) => Ok(StateOf(u)) case None => Err(ErrorAt(t, line)))
            ==> Agrees(t, line)
  {
    hide Inner, Extend, ErrorAt, StateOf, Cut, BehindUpdate;
  }

  lemma {:induction false} CheckHere(t: PatchTree)
    requires t.begin.Some? && t.closing == [] && HunksFit(t.hunks)
    ensures var s := Numbered(StateOf(t));
      CheckNotEmpty(s) == if LastWhole(t.hunks) then Ok(s)
                          else Err(InvalidHunk(if BehindUpdate(t.hunks) && t.hunks[|t.hunks| - 1].chunks == []
                                               then HeaderLine(t) else |Yield(t)| + 1))
    ensures Numbered(StateOf(t)).lineNumber == |Yield(t)| + 1
  {
    hide CheckNotEmpty, HunksOf, Yield, HeaderLine, HunksFit, ModeOf, LastWhole, BehindUpdate;
    CheckStep(t, Numbered(StateOf(t)));
  }

  lemma OpenIsNoOther(line: string, trimmed: string)
    requires OpenedBy(line, trimmed).Some?
    ensures !("*** Environment ID:" <= trimmed) && trimmed != "*** End Patch"
  {
    assert trimmed[4] == 'A' || trimmed[4] == 'D' || trimmed[4] == 'U';
    assert "*** End Patch"[4] == 'E' && "*** Environment ID:"[4] == 'E';
    NoFifth("*** Environment ID:", trimmed);
  }

  lemma NoFifth(prefix: string, s: string)
    requires |prefix| > 4 && |s| > 4 && s[4] != prefix[4]
    ensures !(prefix <= s)
  {
  }

  lemma {:induction false} HeaderCase(t: PatchTree, line: string)
    requires t.begin.Some? && t.closing == [] && HunksFit(t.hunks) && (t.environment.Some? <==> t.environmentId.Some?)
    requires Extend(t, line).Some? ==> Takes(t, line, Extend(t, line).value)
    requires HeaderOf(Cut(line, BehindUpdate(t.hunks)), t.hunks == []) != NotAHeader
    ensures Agrees(t, line)
  {
    var trimmed := Cut(line, BehindUpdate(t.hunks));
    HeaderIs(trimmed, t.hunks == []);
    hide HeaderOf, Cut, HunksFit, Extend, Takes, Agrees;
    if t.hunks == [] && "*** Environment ID:" <= trimmed {
      IdCase(t, line);
    } else if trimmed == "*** End Patch" {
      EndCase(t, line);
    } else {
      OpenCase(t, line);
    }
  }

  lemma Fresh(line: string, trimmed: string)
    ensures OpenedBy(line, trimmed).Some? ==>
      var g := OpenedBy(line, trimmed).value;
      HunkOf(g) == match g
        case AddText(_, path, _) => AddFile(path, "")
        case DeleteText(_, path) => DeleteFile(path)
        case UpdateText(_, path, _, _, _, _, _) => UpdateFile(path, None, [])
  {
  }

  lemma {:induction false} BodyCase(t: PatchTree, line: string)
    requires t.begin.Some? && t.closing == [] && HunksFit(t.hunks)
    requires Extend(t, line).Some? ==> Takes(t, line, Extend(t, line).value)
    requires HeaderOf(Cut(line, BehindUpdate(t.hunks)), t.hunks == []) == NotAHeader
    ensures Agrees(t, line)
  {
    var trimmed := Cut(line, BehindUpdate(t.hunks));
    HeaderIs(trimmed, t.hunks == []);
    hide HeaderOf, Cut, HunksFit;
    PlainExtend(t, line);
    PlainInner(t, line);
    BodyStep(t, line);
    hide OpenedBy, Extend, Inner, Yield, AfterBodyLine, HeaderLine, Takes, ExtendBody, HunksOf, StateOf;
    if t.hunks != [] {
      var h := t.hunks[|t.hunks| - 1];
      BodyKind(h, line);
      KindAgrees(t);
      var g := ExtendBody(h, line);
      if g.Some? {
        BodyState(t, line, g.value);
      }
    }
    hide ModeOf, BehindUpdate;
  }

  predicate IsPlain(t: PatchTree, trimmed: string) {
    && !(t.hunks == [] && "*** Environment ID:" <= trimmed) && trimmed != "*** End Patch"
    && !("*** Add File: " <= trimmed) && !("*** Delete File: " <= trimmed) && !("*** Update File: " <= trimmed)
  }

  lemma KindAgrees(t: PatchTree)
    requires t.begin.Some? && t.closing == [] && t.hunks != []
    ensures ModeFits(ModeOf(t), t.hunks[|t.hunks| - 1])
  {
    hide HeaderLine;
  }

  lemma PlainExtend(t: PatchTree, line: string)
    requires t.begin.Some? && t.closing == [] && IsPlain(t, Cut(line, BehindUpdate(t.hunks)))
    ensures ErrorAt(t, line) == InvalidHunk(|Yield(t)| + 1)
    ensures Extend(t, line) ==
      if t.hunks == [] then None
      else
        var g := ExtendBody(t.hunks[|t.hunks| - 1], line);
        if g.Some? then Some(t.(hunks := t.hunks[..|t.hunks| - 1] + [g.value])) else None
  {
    hide Cut, Yield, ExtendBody, HeaderLine;
  }

  lemma PlainInner(t: PatchTree, line: string)
    requires t.begin.Some? && t.closing == []
    requires HeaderOf(Cut(line, BehindUpdate(t.hunks)), t.hunks == []) == NotAHeader
    ensures var s := Numbered(StateOf(t));
      Inner(s, line, Cut(line, BehindUpdate(t.hunks))) == AfterBodyLine(s, line)
  {
    CutIsCut(t, line);
    hide Cut, HeaderOf, Yield, AfterBodyLine, HunksOf, HeaderLine, Trim, TrimEnd;
  }

  /** Inside a patch, a line is a header, or goes to the hunk in progress. */
  lemma {:induction false} InnerStep(t: PatchTree, line: string)
    requires t.begin.Some? && t.closing == [] && HunksFit(t.hunks) && (t.environment.Some? <==> t.environmentId.Some?)
    requires Extend(t, line).Some? ==> Takes(t, line, Extend(t, line).value)
    ensures InStep(t, line)
  {
    hide Cut, HeaderOf, Extend, HunksFit, Inner, StateOf, ErrorAt, Takes, AfterLine;
    InnerLine(t, line);
    if HeaderOf(Cut(line, BehindUpdate(t.hunks)), t.hunks == []).NotAHeader? {
      BodyCase(t, line);
    } else {
      HeaderCase(t, line);
    }
  }

  // ---------------------------------------------------------------- the lines of the longer tree

  lemma NoChunksYield()
    ensures ChunksYield([]) == [] && HunksYield([]) == []
  {
  }

  lemma LastTaken(chunks: seq<ChunkText>, line: string, c: ChunkText)
    requires chunks != [] && ChunkYield(c) == ChunkYield(chunks[|chunks| - 1]) + [line]
    ensures ChunksYield(chunks[..|chunks| - 1] + [c]) == ChunksYield(chunks) + [line]
  {
    hide ChunksYield, ChunkYield;
    var front, last := chunks[..|chunks| - 1], chunks[|chunks| - 1];
    FrontAndLast(chunks);
    ChunksYieldSnoc(front, last);
    ChunksYieldSnoc(front, c);
    Associative(ChunksYield(front), ChunkYield(last), [line]);
  }

  lemma {:induction false} ChunksTake(chunks: seq<ChunkText>, line: string)
    requires chunks != []
    ensures var r := ExtendChunks(chunks, line);
      r.Some? ==> ChunksYield(r.value) == ChunksYield(chunks) + [line]
  {
    hide ChunksYield, TrimEnd, IsDiff, ChunkYield, Opened;
    var c := chunks[|chunks| - 1];
    ChunkTakes(c, line);
    ChunksYieldSnoc(chunks, Opened(line));
    LastTaken(chunks, line, c.(ending := c.ending + [line]));
    if c.ending == [] {
      LastTaken(chunks, line, c.(ending := [line]));
      LastTaken(chunks, line, c.(diff := c.diff + [line]));
    }
  }

  lemma ChunkTakes(c: ChunkText, line: string)
    ensures ChunkYield(c.(ending := c.ending + [line])) == ChunkYield(c) + [line]
    ensures c.ending == [] ==> ChunkYield(c.(ending := [line])) == ChunkYield(c) + [line]
    ensures c.ending == [] ==> ChunkYield(c.(diff := c.diff + [line])) == ChunkYield(c) + [line]
    ensures ChunkYield(Opened(line)) == [line]
  {
    hide TrimEnd;
    Associative(One(c.opening) + c.diff, c.ending, [line]);
    Associative(One(c.opening), c.diff, [line]);
    assert c.ending == [] ==> One(c.opening) + c.diff + c.ending == One(c.opening) + c.diff;
  }

  lemma {:induction false} BodyTakes(h: HunkText, line: string)
    requires h.UpdateText? ==> (h.move.None? ==> h.skippedAfter == [])
    ensures var g := ExtendBody(h, line);
      g.Some? ==> HunkYield(g.value) == HunkYield(h) + [line]
  {
    match h {
      case AddText(header, _, body) => Associative([header], body, [line]);
      case DeleteText(_, _) =>
      case UpdateText(_, _, _, _, _, _, _) => UpdateTakes(h, line);
    }
  }

  lemma TakeSkipped(h: HunkText, line: string)
    requires h.UpdateText? && h.chunks == [] && h.move.None? && h.skippedAfter == []
    ensures HunkYield(h.(skipped := h.skipped + [line])) == HunkYield(h) + [line]
  {
    NoChunksYield();
    assert [h.header] + (h.skipped + [line]) == [h.header] + h.skipped + [line];
    hide ChunksYield;
  }

  lemma TakeSkippedAfter(h: HunkText, line: string)
    requires h.UpdateText? && h.chunks == []
    ensures HunkYield(h.(skippedAfter := h.skippedAfter + [line])) == HunkYield(h) + [line]
  {
    NoChunksYield();
    Associative([h.header] + h.skipped + One(h.move), h.skippedAfter, [line]);
    hide ChunksYield;
  }

  lemma TakeMove(h: HunkText, line: string, path: string)
    requires h.UpdateText? && h.chunks == [] && h.move.None? && h.skippedAfter == []
    ensures HunkYield(h.(move := Some(line), movePath := Some(path))) == HunkYield(h) + [line]
  {
    NoChunksYield();
    hide ChunksYield;
  }

  lemma TakeChunk(h: HunkText, line: string, c: ChunkText)
    requires h.UpdateText? && h.chunks == [] && ChunkYield(c) == [line]
    ensures HunkYield(h.(chunks := [c])) == HunkYield(h) + [line]
  {
    NoChunksYield();
    ChunksYieldSnoc([], c);
    assert [] + [c] == [c] && [] + [line] == [line];
    hide ChunksYield;
  }

  lemma TakeChunks(h: HunkText, line: string, chunks: seq<ChunkText>)
    requires h.UpdateText? && ChunksYield(chunks) == ChunksYield(h.chunks) + [line]
    ensures HunkYield(h.(chunks := chunks)) == HunkYield(h) + [line]
  {
    Associative([h.header] + h.skipped + One(h.move) + h.skippedAfter, ChunksYield(h.chunks), [line]);
    hide ChunksYield;
  }

  lemma {:induction false} UpdateTakes(h: HunkText, line: string)
    requires h.UpdateText? && (h.move.None? ==> h.skippedAfter == [])
    ensures var g := ExtendUpdate(h, line);
      g.Some? ==> HunkYield(g.value) == HunkYield(h) + [line]
  {
    hide HunkYield, ExtendChunks, ChunksYield, ChunkYield, TrimEnd, IsDiff, Opened;
    var trimmed := TrimEnd(line);
    if h.chunks != [] {
      ChunksTake(h.chunks, line);
      var extended := ExtendChunks(h.chunks, line);
      if extended.Some? {
        TakeChunks(h, line, extended.value);
      }
    } else if trimmed == "*** End of File" {
      if h.move.Some? {
        TakeSkippedAfter(h, line);
      } else {
        TakeSkipped(h, line);
      }
    } else if "*** Move to: " <= trimmed && h.move.None? {
      TakeMove(h, line, trimmed[|"*** Move to: "|..]);
    } else {
      ChunkTakes(ChunkText(None, None, [], []), line);
      OneDiff(line);
      TakeChunk(h, line, Opened(line));
      TakeChunk(h, line, ChunkText(None, None, [line], []));
    }
  }

  lemma OneDiff(line: string)
    ensures ChunkYield(ChunkText(None, None, [line], [])) == [line]
  {
  }

  lemma FirstTakes(t: PatchTree, line: string)
    requires Fits(t) && t.begin.None?
    ensures var u := Extend(t, line);
      u.Some? ==> Takes(t, line, u.value)
  {
    hide Trim, HunksFit, Cut, BehindUpdate;
    NoChunksYield();
  }

  lemma LateTakes(t: PatchTree, line: string)
    requires t.begin.Some? && t.closing != []
    ensures var u := Extend(t, line);
      u.Some? ==> Takes(t, line, u.value)
  {
    hide Trim, HunksYield, HunksFit, Cut, BehindUpdate, Fits;
    Associative(One(t.begin) + One(t.environment) + HunksYield(t.hunks), t.closing, [line]);
  }

  /** With one more line, the tree has one more line. */
  lemma {:induction false} ExtendTakes(t: PatchTree, line: string)
    requires Fits(t)
    ensures var u := Extend(t, line);
      u.Some? ==> Takes(t, line, u.value)
  {
    hide Trim, HunksYield, HunksFit, Cut, BehindUpdate, Takes, Extend;
    if t.begin.None? {
      FirstTakes(t, line);
    } else if t.closing == [] {
      InnerTakes(t, line);
    } else {
      LateTakes(t, line);
    }
  }

  lemma TakeHunks(t: PatchTree, line: string, hunks: seq<HunkText>)
    requires t.closing == [] && HunksYield(hunks) == HunksYield(t.hunks) + [line]
    ensures Takes(t, line, t.(hunks := hunks))
  {
    Associative(One(t.begin) + One(t.environment), HunksYield(t.hunks), [line]);
    hide HunksYield;
  }

  lemma TakeClosing(t: PatchTree, line: string)
    requires t.closing == []
    ensures Takes(t, line, t.(closing := [line]))
  {
    hide HunksYield;
  }

  lemma TakeId(t: PatchTree, line: string, id: string)
    requires t.hunks == [] && t.closing == [] && t.environment.None?
    ensures Takes(t, line, t.(environment := Some(line), environmentId := Some(id)))
  {
    NoChunksYield();
    hide HunksYield;
  }

  lemma {:induction false} LastTakes(hunks: seq<HunkText>, line: string)
    requires HunksFit(hunks) && hunks != []
    ensures var g := ExtendBody(hunks[|hunks| - 1], line);
      g.Some? ==> HunksYield(hunks[..|hunks| - 1] + [g.value]) == HunksYield(hunks) + [line]
  {
    var front, h := hunks[..|hunks| - 1], hunks[|hunks| - 1];
    hide HunksYield, HunkYield, ExtendBody, HunksFit;
    FrontAndLast(hunks);
    HunksYieldSnoc(front, h);
    SkippedAfterMove(hunks);
    BodyTakes(h, line);
    var g := ExtendBody(h, line);
    if g.Some? {
      HunksYieldSnoc(front, g.value);
    }
    Associative(HunksYield(front), HunkYield(h), [line]);
  }

  lemma {:induction false} InnerTakes(t: PatchTree, line: string)
    requires t.begin.Some? && t.closing == [] && HunksFit(t.hunks)
    ensures var u := Extend(t, line);
      u.Some? ==> Takes(t, line, u.value)
  {
    var trimmed := Cut(line, BehindUpdate(t.hunks));
    hide HunksYield, HunkYield, ExtendBody, Cut, Trim, HunksFit, Takes, Extend, OpenedBy, LastWhole;
    if t.hunks == [] && "*** Environment ID:" <= trimmed {
      IdExtend(t, line);
      if t.environment.None? {
        TakeId(t, line, Trim(trimmed[|"*** Environment ID:"|..]));
      }
    } else if trimmed == "*** End Patch" {
      EndExtend(t, line);
      TakeClosing(t, line);
    } else if OpenedBy(line, trimmed).Some? {
      OpenExtend(t, line);
      var g := OpenedBy(line, trimmed).value;
      HunksYieldSnoc(t.hunks, g);
      FreshYield(line, trimmed);
      TakeHunks(t, line, t.hunks + [g]);
    } else {
      NotOpened(line, trimmed);
      PlainExtend(t, line);
      if t.hunks != [] {
        LastTakes(t.hunks, line);
        var g := ExtendBody(t.hunks[|t.hunks| - 1], line);
        if g.Some? {
          TakeHunks(t, line, t.hunks[..|t.hunks| - 1] + [g.value]);
        }
      }
    }
  }

  lemma NotOpened(line: string, trimmed: string)
    requires OpenedBy(line, trimmed).None?
    ensures !("*** Add File: " <= trimmed) && !("*** Delete File: " <= trimmed) && !("*** Update File: " <= trimmed)
  {
  }

  lemma FreshYield(line: string, trimmed: string)
    ensures OpenedBy(line, trimmed).Some? ==> HunkYield(OpenedBy(line, trimmed).value) == [line]
  {
    NoChunksYield();
    hide ChunksYield;
  }

  lemma SkippedAfterMove(hunks: seq<HunkText>)
    requires HunksFit(hunks) && hunks != []
    ensures var h := hunks[|hunks| - 1];
      h.UpdateText? ==> (h.move.None? ==> h.skippedAfter == [])
  {
    hide HeaderFits, AllEndOfFile, ChunksFit, TrimEnd;
  }

  // ---------------------------------------------------------------- the longer tree fits

  lemma OpenedFits(line: string)
    ensures var trimmed := TrimEnd(line);
      trimmed == "@@" || "@@ " <= trimmed ==> ChunkFits(Opened(line)) && Opened(line).opening.Some?
  {
    hide TrimEnd;
    var trimmed := TrimEnd(line);
    if "@@ " <= trimmed {
      assert trimmed == "@@ " + trimmed[3..];
    }
  }

  lemma ChunkStaysFit(c: ChunkText, line: string)
    requires ChunkFits(c)
    ensures IsBlank(line) && c.ending != [] ==> ChunkFits(c.(ending := c.ending + [line]))
    ensures IsEndOfFile(line) && c.ending == [] && c.diff != [] ==> ChunkFits(c.(ending := [line]))
    ensures IsDiff(line) && c.ending == [] ==> ChunkFits(c.(diff := c.diff + [line]))
  {
    hide OpensWith, IsBlank, IsEndOfFile, IsDiff;
  }

  lemma LastChunkFits(chunks: seq<ChunkText>, c: ChunkText)
    requires ChunksFit(chunks) && chunks != [] && ChunkFits(c)
    requires c.opening == chunks[|chunks| - 1].opening
    ensures ChunksFit(chunks[..|chunks| - 1] + [c])
  {
    hide ChunkFits;
  }

  lemma NextChunkFits(chunks: seq<ChunkText>, c: ChunkText)
    requires ChunksFit(chunks) && ChunkFits(c) && (chunks != [] ==> c.opening.Some? && chunks[|chunks| - 1].diff != [])
    ensures ChunksFit(chunks + [c])
  {
    hide ChunkFits;
  }

  lemma {:induction false} ChunksStayFit(chunks: seq<ChunkText>, line: string)
    requires chunks != [] && ChunksFit(chunks)
    ensures var r := ExtendChunks(chunks, line);
      r.Some? ==> ChunksFit(r.value)
  {
    var c := chunks[|chunks| - 1];
    assert ChunkFits(c) && (IsBlank(line) <==> TrimEnd(line) == "");
    assert IsEndOfFile(line) <==> TrimEnd(line) == "*** End of File";
    hide TrimEnd, IsDiff, ChunksFit, ChunkFits, IsBlank, IsEndOfFile, Opened;
    ChunkStaysFit(c, line);
    OpenedFits(line);
    var r := ExtendChunks(chunks, line);
    if r.Some? {
      if |r.value| > |chunks| {
        NextChunkFits(chunks, Opened(line));
      } else {
        LastChunkFits(chunks, r.value[|r.value| - 1]);
      }
    }
  }

  lemma MoveIsFit(line: string)
    ensures "*** Move to: " <= TrimEnd(line) ==> MoveFits(Some(line), Some(TrimEnd(line)[|"*** Move to: "|..]))
  {
    hide TrimEnd;
    var trimmed := TrimEnd(line);
    if "*** Move to: " <= trimmed {
      assert trimmed == "*** Move to: " + trimmed[|"*** Move to: "|..];
    }
  }

  lemma MoreEndOfFile(lines: seq<string>, line: string)
    requires AllEndOfFile(lines) && TrimEnd(line) == "*** End of File"
    ensures AllEndOfFile(lines + [line])
  {
    hide TrimEnd;
  }

  lemma NoMove(h: HunkText)
    requires h.UpdateText? && BodyFits(h)
    ensures h.move.None? ==> h.skippedAfter == [] && h.movePath == None
  {
    hide AllEndOfFile, ChunksFit, TrimEnd;
  }

  lemma {:induction false} UpdateStaysFit(h: HunkText, line: string)
    requires h.UpdateText? && BodyFits(h)
    ensures var g := ExtendUpdate(h, line);
      g.Some? ==> BodyFits(g.value)
  {
    hide TrimEnd, IsDiff, ChunksFit, ChunkFits, AllEndOfFile, Opened, ExtendChunks, MoveFits;
    var trimmed := TrimEnd(line);
    if h.chunks != [] {
      ChunksStayFit(h.chunks, line);
    } else if trimmed == "*** End of File" {
      MoreEndOfFile(h.skipped, line);
      MoreEndOfFile(h.skippedAfter, line);
    } else if "*** Move to: " <= trimmed && h.move.None? {
      MoveIsFit(line);
    } else {
      OpenedFits(line);
      FirstChunksFit(line);
    }
  }

  lemma FirstChunksFit(line: string)
    ensures IsDiff(line) ==> ChunksFit([ChunkText(None, None, [line], [])])
    ensures ChunkFits(Opened(line)) ==> ChunksFit([Opened(line)])
  {
    hide Opened, IsDiff, TrimEnd;
  }

  lemma AddedStaysFit(h: HunkText, line: string)
    requires !h.UpdateText? && BodyFits(h)
    ensures var g := ExtendBody(h, line);
      g.Some? ==> BodyFits(g.value)
  {
  }

  lemma HeaderStays(h: HunkText, line: string, behindUpdate: bool)
    ensures var g := ExtendBody(h, line);
      g.Some? ==>
        && (g.value.UpdateText? <==> h.UpdateText?)
        && (HeaderFits(h, behindUpdate) ==> HeaderFits(g.value, behindUpdate))
  {
    hide Cut, ExtendChunks, TrimEnd, IsDiff, Opened;
  }

  lemma {:induction false} BodyStaysFit(h: HunkText, line: string, behindUpdate: bool)
    requires HunkFits(h, behindUpdate)
    ensures var g := ExtendBody(h, line);
      g.Some? ==> HunkFits(g.value, behindUpdate) && (g.value.UpdateText? <==> h.UpdateText?)
  {
    hide HeaderFits, BodyFits, ExtendUpdate;
    HeaderStays(h, line, behindUpdate);
    if h.UpdateText? {
      UpdateStaysFit(h, line);
    } else {
      AddedStaysFit(h, line);
    }
  }

  lemma PrefixRest(prefix: string, s: string)
    ensures prefix <= s ==> s == prefix + s[|prefix|..]
  {
  }

  lemma FreshHeaderFits(line: string, behindUpdate: bool)
    ensures var g := OpenedBy(line, Cut(line, behindUpdate));
      g.Some? ==> HeaderFits(g.value, behindUpdate)
  {
    hide Cut;
    var trimmed := Cut(line, behindUpdate);
    PrefixRest("*** Add File: ", trimmed);
    PrefixRest("*** Delete File: ", trimmed);
    PrefixRest("*** Update File: ", trimmed);
  }

  lemma FreshBodyFits(line: string, trimmed: string)
    ensures var g := OpenedBy(line, trimmed);
      g.Some? ==> BodyFits(g.value)
  {
    assert ChunksFit([]) && AllEndOfFile([]);
    hide ChunksFit, AllEndOfFile;
  }

  lemma FreshFits(line: string, behindUpdate: bool)
    ensures var g := OpenedBy(line, Cut(line, behindUpdate));
      g.Some? ==> HunkFits(g.value, behindUpdate)
  {
    FreshHeaderFits(line, behindUpdate);
    FreshBodyFits(line, Cut(line, behindUpdate));
    hide Cut, HeaderFits, BodyFits, OpenedBy;
  }

  lemma {:induction false} HunksFitSnoc(front: seq<HunkText>, g: HunkText)
    ensures HunksFit(front + [g]) <==> HunksFit(front) && LastWhole(front) && HunkFits(g, BehindUpdate(front))
  {
    hide HunkFits, LastWhole, BehindUpdate;
    Snoc(front, g);
  }

  /** With one more line, the tree still fits. */
  lemma {:induction false} ExtendFits(t: PatchTree, line: string)
    requires Fits(t)
    ensures var u := Extend(t, line);
      u.Some? ==> Fits(u.value)
  {
    if t.begin.None? {
      BeginFits(line);
    } else if t.closing != [] {
      ClosingFits(t, line);
    } else {
      InnerFits(t, line);
    }
  }

  lemma BeginFits(line: string)
    ensures var u := Extend(NO_LINES, line);
      u.Some? ==> Fits(u.value)
  {
    assert HunksFit([]);
    hide Trim, HunksFit;
  }

  lemma ClosingFits(t: PatchTree, line: string)
    requires Fits(t) && t.begin.Some? && t.closing != []
    ensures var u := Extend(t, line);
      u.Some? ==> Fits(u.value)
  {
    hide Trim, HunksFit, Cut, LastWhole, BehindUpdate;
  }

  lemma {:induction false} InnerFits(t: PatchTree, line: string)
    requires Fits(t) && t.begin.Some? && t.closing == []
    ensures var u := Extend(t, line);
      u.Some? ==> Fits(u.value)
  {
    var trimmed := Cut(line, BehindUpdate(t.hunks));
    hide HunksFit, ExtendBody, Cut, Trim, Extend, OpenedBy, LastWhole, HunkFits;
    if t.hunks == [] && "*** Environment ID:" <= trimmed {
      IdExtend(t, line);
      CutIsTrim(line);
    } else if trimmed == "*** End Patch" {
      EndExtend(t, line);
    } else if OpenedBy(line, trimmed).Some? {
      OpenExtend(t, line);
      FreshFits(line, BehindUpdate(t.hunks));
      HunksFitSnoc(t.hunks, OpenedBy(line, trimmed).value);
    } else {
      NotOpened(line, trimmed);
      PlainExtend(t, line);
      if t.hunks != [] {
        var front, h := t.hunks[..|t.hunks| - 1], t.hunks[|t.hunks| - 1];
        FrontAndLast(t.hunks);
        HunksFitSnoc(front, h);
        BodyStaysFit(h, line, BehindUpdate(front));
        var g := ExtendBody(h, line);
        if g.Some? {
          HunksFitSnoc(front, g.value);
        }
      }
    }
  }

  lemma CutIsTrim(line: string)
    ensures Cut(line, false) == Trim(line)
  {
  }

  /** Both together: for a tree that fits, a line that has a place gives a tree that fits, has the line behind its
      own, and shows the parser's state; for any other line the parser stops with the stated error. */
  lemma {:induction false} ExtendStep(t: PatchTree, line: string)
    requires Fits(t)
    ensures InStep(t, line)
    ensures var u := Extend(t, line);
      u.Some? ==> Fits(u.value) && Takes(t, line, u.value)
  {
    ExtendFits(t, line);
    ExtendTakes(t, line);
    IdIsLine(t);
    hide Fits, Takes, InStep, Extend;
    if t.begin.Some? && t.closing == [] {
      InnerStep(t, line);
    } else {
      OuterStep(t, line);
    }
  }

  lemma IdIsLine(t: PatchTree)
    requires Fits(t)
    ensures t.environment.Some? <==> t.environmentId.Some?
    ensures t.begin.Some? ==> HunksFit(t.hunks)
  {
    hide HunksFit, Trim, Cut;
  }
}
