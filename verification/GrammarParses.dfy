/** The parser accepts exactly the texts of the grammar, and gives what they mean. */
module GrammarParses {
  import opened Text
  import opened Patch
  import opened StreamingParser
  import opened ParserRuns
  import opened PatchText
  import opened PatchGrammar
  import opened GrammarSteps

  // ---------------------------------------------------------------- the last line of a tree

  lemma PlusIsPlain(t: PatchTree, line: string)
    requires t.hunks != [] && !BehindUpdate(t.hunks) && line != "" && line[0] == '+'
    ensures IsPlain(t, Cut(line, BehindUpdate(t.hunks)))
  {
    PlusTrims(line);
    var trimmed := Trim(line);
    hide Trim;
    NoPrefix("*** Add File: ", trimmed);
    NoPrefix("*** Delete File: ", trimmed);
    NoPrefix("*** Update File: ", trimmed);
    assert "*** End Patch"[0] == '*';
  }

  lemma PlusTrims(line: string)
    requires line != "" && line[0] == '+'
    ensures Trim(line) != "" && Trim(line)[0] == '+'
  {
    var t := TrimEnd(line);
    assert !IsWhitespace('+');
    assert t != "" && t[0] == '+';
  }

  lemma DiffIsPlain(t: PatchTree, line: string)
    requires BehindUpdate(t.hunks) && IsDiff(line)
    ensures IsPlain(t, Cut(line, BehindUpdate(t.hunks)))
  {
    DiffIsNoMarker(line);
    HeaderIs(TrimEnd(line), false);
    hide TrimEnd, HeaderOf, IsDiff;
  }

  lemma MarkerIsPlain(t: PatchTree, line: string)
    requires BehindUpdate(t.hunks)
    requires IsEndOfFile(line) || IsBlank(line) || "*** Move to: " <= TrimEnd(line) || TrimEnd(line) == "@@"
             || "@@ " <= TrimEnd(line)
    ensures IsPlain(t, Cut(line, BehindUpdate(t.hunks)))
  {
    var trimmed := TrimEnd(line);
    hide TrimEnd;
    MarkerIsNoHeader(trimmed);
  }

  lemma MarkerIsNoHeader(trimmed: string)
    requires trimmed == "" || trimmed == "*** End of File" || "*** Move to: " <= trimmed || trimmed == "@@"
             || "@@ " <= trimmed
    ensures trimmed != "*** End Patch" && !("*** Add File: " <= trimmed)
    ensures !("*** Delete File: " <= trimmed) && !("*** Update File: " <= trimmed)
  {
    if trimmed == "*** End of File" || "*** Move to: " <= trimmed {
      assert trimmed[4] == 'E' || trimmed[4] == 'M';
      NoFifth("*** Add File: ", trimmed);
      NoFifth("*** Delete File: ", trimmed);
      NoFifth("*** Update File: ", trimmed);
      assert "*** End Patch"[4] == 'E' && "*** End Patch"[8] == 'P' && "*** End of File"[8] == 'o';
    } else {
      assert trimmed == "" || trimmed[0] == '@';
      NoPrefix("*** Add File: ", trimmed);
      NoPrefix("*** Delete File: ", trimmed);
      NoPrefix("*** Update File: ", trimmed);
      assert "*** End Patch"[0] == '*';
    }
  }

  /** A tree whose last hunk grew by a line in its body. */
  lemma {:induction false} BodyDrops(t: PatchTree, h: HunkText, line: string) returns (u: PatchTree)
    requires Fits(t) && t.begin.Some? && t.closing == [] && t.hunks != []
    requires BodyFits(h) && ExtendBody(h, line) == Some(t.hunks[|t.hunks| - 1])
    requires forall b :: HeaderFits(t.hunks[|t.hunks| - 1], b) ==> HeaderFits(h, b)
    requires IsPlain(t.(hunks := t.hunks[..|t.hunks| - 1] + [h]), Cut(line, h.UpdateText?))
    ensures Fits(u) && Extend(u, line) == Some(t)
  {
    hide HunksFit, ExtendBody, Cut, Trim, LastWhole, HeaderFits, BodyFits, IsPlain, Extend;
    var front := t.hunks[..|t.hunks| - 1];
    u := t.(hunks := front + [h]);
    FrontAndLast(t.hunks);
    HunksFitSnoc(front, t.hunks[|t.hunks| - 1]);
    HunksFitSnoc(front, h);
    Snoc(front, h);
    PlainExtend(u, line);
  }

  /** A line of the body of an update hunk. */
  predicate IsBodyLine(line: string) {
    || IsDiff(line) || IsEndOfFile(line) || IsBlank(line) || "*** Move to: " <= TrimEnd(line) || TrimEnd(line) == "@@"
    || "@@ " <= TrimEnd(line)
  }

  lemma OpenedIs(line: string, context: Option<string>)
    requires OpensWith(line, context)
    ensures Opened(line) == ChunkText(Some(line), context, [], [])
    ensures TrimEnd(line) == "@@" || "@@ " <= TrimEnd(line)
    ensures TrimEnd(line) != "" && TrimEnd(line) != "*** End of File" && !("*** Move to: " <= TrimEnd(line))
  {
    hide TrimEnd;
    var trimmed := TrimEnd(line);
    assert trimmed[0] == '@';
    NoPrefix("*** Move to: ", trimmed);
    if context.Some? {
      assert trimmed == "@@ " + context.value && trimmed[3..] == context.value;
    }
  }

  lemma MarkersDiffer(line: string)
    ensures IsEndOfFile(line) ==> !IsDiff(line) && TrimEnd(line) != "@@" && !("@@ " <= TrimEnd(line))
                                  && !("*** Move to: " <= TrimEnd(line)) && TrimEnd(line) != ""
    ensures IsBlank(line) ==> TrimEnd(line) != "@@" && !("@@ " <= TrimEnd(line))
    ensures "*** Move to: " <= TrimEnd(line) ==> TrimEnd(line) != "*** End of File"
  {
    if IsDiff(line) {
      DiffIsNoMarker(line);
    }
    hide TrimEnd, IsDiff;
    var trimmed := TrimEnd(line);
    if trimmed == "" {
      NoPrefix("@@ ", trimmed);
    }
    if trimmed == "*** End of File" {
      NoPrefix("@@ ", trimmed);
      NoFifth("*** Move to: ", trimmed);
    }
  }

  /** The chunks without their last line: the grammar puts it back. */
  lemma {:induction false} ChunksDrop(chunks: seq<ChunkText>) returns (fewer: seq<ChunkText>, line: string)
    requires chunks != [] && ChunksFit(chunks)
    ensures ChunksFit(fewer) && IsBodyLine(line)
    ensures if fewer != [] then ExtendChunks(fewer, line) == Some(chunks)
            else || (chunks == [Opened(line)] && (TrimEnd(line) == "@@" || "@@ " <= TrimEnd(line)))
                 || (chunks == [ChunkText(None, None, [line], [])] && IsDiff(line))
  {
    var front, c := chunks[..|chunks| - 1], chunks[|chunks| - 1];
    assert ChunkFits(c);
    FrontAndLast(chunks);
    if c.ending != [] {
      fewer, line := EndingDrops(chunks);
    } else if c.diff == [] || (|c.diff| == 1 && c.opening.None?) {
      fewer, line := ChunkDrops(chunks);
    } else {
      fewer, line := DiffDrops(chunks);
    }
  }

  lemma {:induction false} EndingShorter(c: ChunkText) returns (d: ChunkText, line: string)
    requires ChunkFits(c) && c.ending != []
    ensures ChunkFits(d) && d.diff != [] && IsBodyLine(line)
    ensures c == d.(ending := d.ending + [line])
    ensures if d.ending != [] then IsBlank(line) else IsEndOfFile(line)
  {
    var k := |c.ending| - 1;
    line := c.ending[k];
    d := c.(ending := c.ending[..k]);
    FrontAndLast(c.ending);
    hide IsDiff, TrimEnd, OpensWith, IsBlank, IsEndOfFile;
  }

  lemma {:induction false} EndingDrops(chunks: seq<ChunkText>) returns (fewer: seq<ChunkText>, line: string)
    requires chunks != [] && ChunksFit(chunks) && chunks[|chunks| - 1].ending != []
    ensures fewer != [] && ChunksFit(fewer) && IsBodyLine(line) && ExtendChunks(fewer, line) == Some(chunks)
  {
    var front, c := chunks[..|chunks| - 1], chunks[|chunks| - 1];
    assert ChunkFits(c);
    hide ChunksFit, ChunkFits, IsBodyLine, ExtendChunks, IsBlank, IsEndOfFile;
    var d: ChunkText;
    d, line := EndingShorter(c);
    fewer := front + [d];
    FrontAndLast(chunks);
    LastChunkFits(chunks, d);
    EndingExtends(front, d, line);
  }

  lemma EndingExtends(front: seq<ChunkText>, d: ChunkText, line: string)
    requires d.diff != [] && if d.ending != [] then IsBlank(line) else IsEndOfFile(line)
    ensures ExtendChunks(front + [d], line) == Some(front + [d.(ending := d.ending + [line])])
  {
    MarkersDiffer(line);
    Snoc(front, d);
    hide TrimEnd, IsDiff, Opened;
    assert d.ending == [] ==> d.ending + [line] == [line];
  }

  lemma {:induction false} ChunkDrops(chunks: seq<ChunkText>) returns (fewer: seq<ChunkText>, line: string)
    requires chunks != [] && ChunksFit(chunks) && chunks[|chunks| - 1].ending == []
    requires var c := chunks[|chunks| - 1]; c.diff == [] || (|c.diff| == 1 && c.opening.None?)
    ensures ChunksFit(fewer) && IsBodyLine(line)
    ensures if fewer != [] then ExtendChunks(fewer, line) == Some(chunks)
            else || (chunks == [Opened(line)] && (TrimEnd(line) == "@@" || "@@ " <= TrimEnd(line)))
                 || (chunks == [ChunkText(None, None, [line], [])] && IsDiff(line))
  {
    fewer := chunks[..|chunks| - 1];
    var c := chunks[|chunks| - 1];
    assert ChunkFits(c);
    FrontAndLast(chunks);
    FrontFits(chunks);
    if c.diff == [] {
      line := c.opening.value;
      OpenedIs(line, c.context);
      hide IsDiff, TrimEnd, OpensWith, ChunksFit, ChunkFits, Opened;
    } else {
      line := c.diff[0];
      assert c.diff == [line];
      hide TrimEnd, OpensWith, ChunkFits;
    }
  }

  lemma FrontFits(chunks: seq<ChunkText>)
    requires chunks != [] && ChunksFit(chunks)
    ensures ChunksFit(chunks[..|chunks| - 1])
    ensures |chunks| > 1 ==> chunks[|chunks| - 2].diff != [] && chunks[|chunks| - 1].opening.Some?
  {
    hide ChunkFits;
  }

  lemma {:induction false} DiffShorter(c: ChunkText) returns (d: ChunkText, line: string)
    requires ChunkFits(c) && c.ending == [] && c.diff != [] && (|c.diff| == 1 ==> c.opening.Some?)
    ensures ChunkFits(d) && IsDiff(line) && c == d.(diff := d.diff + [line])
  {
    var k := |c.diff| - 1;
    line := c.diff[k];
    d := c.(diff := c.diff[..k]);
    FrontAndLast(c.diff);
    hide IsDiff, TrimEnd, OpensWith;
  }

  lemma {:induction false} DiffDrops(chunks: seq<ChunkText>) returns (fewer: seq<ChunkText>, line: string)
    requires chunks != [] && ChunksFit(chunks) && chunks[|chunks| - 1].ending == []
    requires var c := chunks[|chunks| - 1]; c.diff != [] && (|c.diff| == 1 ==> c.opening.Some?)
    ensures fewer != [] && ChunksFit(fewer) && IsBodyLine(line) && ExtendChunks(fewer, line) == Some(chunks)
  {
    var front, c := chunks[..|chunks| - 1], chunks[|chunks| - 1];
    assert ChunkFits(c);
    hide ChunksFit, ChunkFits, ExtendChunks, IsDiff;
    var d: ChunkText;
    d, line := DiffShorter(c);
    fewer := front + [d];
    FrontAndLast(chunks);
    LastChunkFits(chunks, d);
    DiffExtends(front, d, line);
  }

  lemma DiffExtends(front: seq<ChunkText>, d: ChunkText, line: string)
    requires d.ending == [] && IsDiff(line)
    ensures ExtendChunks(front + [d], line) == Some(front + [d.(diff := d.diff + [line])])
  {
    DiffIsNoMarker(line);
    Snoc(front, d);
    hide TrimEnd, IsDiff, Opened, MarkerOf, HeaderOf;
  }

  // ---------------------------------------------------------------- the last line of a hunk

  predicate HasBody(h: HunkText) {
    match h
    case AddText(_, _, body) => body != []
    case DeleteText(_, _) => false
    case UpdateText(_, _, skipped, move, _, _, chunks) => skipped != [] || move.Some? || chunks != []
  }

  /** The same hunk but for its body. */
  predicate SameHeader(g: HunkText, h: HunkText) {
    match g
    case AddText(header, path, _) => h.AddText? && h.header == header && h.path == path
    case DeleteText(_, _) => h == g
    case UpdateText(header, path, _, _, _, _, _) => h.UpdateText? && h.header == header && h.path == path
  }

  lemma SameHeaderFits(g: HunkText, h: HunkText)
    requires SameHeader(g, h)
    ensures forall b :: HeaderFits(h, b) ==> HeaderFits(g, b)
  {
    hide Cut;
  }

  lemma {:induction false} ChunksBodyDrops(h: HunkText) returns (g: HunkText, line: string)
    requires h.UpdateText? && BodyFits(h) && h.chunks != []
    ensures SameHeader(g, h) && BodyFits(g) && IsBodyLine(line) && ExtendUpdate(g, line) == Some(h)
  {
    hide ChunksFit, ExtendChunks, IsBodyLine, TrimEnd, IsDiff, Opened, AllEndOfFile, MoveFits, IsBlank, IsEndOfFile;
    var fewer: seq<ChunkText>;
    fewer, line := ChunksDrop(h.chunks);
    g := h.(chunks := fewer);
    if fewer == [] {
      if h.chunks == [Opened(line)] && (TrimEnd(line) == "@@" || "@@ " <= TrimEnd(line)) {
        ContextDiffers(line);
      } else {
        DiffIsNoMarker(line);
      }
    }
  }

  lemma ContextDiffers(line: string)
    requires TrimEnd(line) == "@@" || "@@ " <= TrimEnd(line)
    ensures TrimEnd(line) != "*** End of File" && !("*** Move to: " <= TrimEnd(line))
  {
    hide TrimEnd;
    assert TrimEnd(line)[0] == '@';
    NoPrefix("*** Move to: ", TrimEnd(line));
  }

  lemma {:induction false} PlainBodyDrops(h: HunkText) returns (g: HunkText, line: string)
    requires h.UpdateText? && BodyFits(h) && h.chunks == [] && HasBody(h)
    ensures SameHeader(g, h) && BodyFits(g) && IsBodyLine(line) && ExtendUpdate(g, line) == Some(h)
  {
    NoMove(h);
    hide ChunksFit, ExtendChunks, TrimEnd, IsDiff, Opened;
    if h.skippedAfter != [] {
      line := h.skippedAfter[|h.skippedAfter| - 1];
      g := h.(skippedAfter := h.skippedAfter[..|h.skippedAfter| - 1]);
      FrontAndLast(h.skippedAfter);
    } else if h.move.Some? {
      line := h.move.value;
      g := h.(move := None, movePath := None);
      MarkersDiffer(line);
      var trimmed := TrimEnd(line);
      assert trimmed[|"*** Move to: "|..] == h.movePath.value;
    } else {
      line := h.skipped[|h.skipped| - 1];
      g := h.(skipped := h.skipped[..|h.skipped| - 1]);
      FrontAndLast(h.skipped);
    }
  }

  lemma {:induction false} AddedDrops(h: HunkText) returns (g: HunkText, line: string)
    requires h.AddText? && BodyFits(h) && h.body != []
    ensures SameHeader(g, h) && BodyFits(g) && ExtendBody(g, line) == Some(h) && line != "" && line[0] == '+'
  {
    line := h.body[|h.body| - 1];
    g := h.(body := h.body[..|h.body| - 1]);
    FrontAndLast(h.body);
  }

  lemma IsBodyPlain(t: PatchTree, line: string)
    requires BehindUpdate(t.hunks) && IsBodyLine(line)
    ensures IsPlain(t, Cut(line, BehindUpdate(t.hunks)))
  {
    hide IsPlain, Cut, TrimEnd, IsDiff;
    if IsDiff(line) {
      DiffIsPlain(t, line);
    } else {
      MarkerIsPlain(t, line);
    }
  }

  lemma BehindLast(front: seq<HunkText>, h: HunkText)
    ensures BehindUpdate(front + [h]) == h.UpdateText?
  {
  }

  lemma LastFitsWhole(t: PatchTree)
    requires Fits(t) && t.begin.Some? && t.hunks != []
    ensures HunksFit(t.hunks[..|t.hunks| - 1]) && LastWhole(t.hunks[..|t.hunks| - 1])
    ensures var h := t.hunks[|t.hunks| - 1];
      BodyFits(h) && HeaderFits(h, BehindUpdate(t.hunks[..|t.hunks| - 1]))
  {
    FrontAndLast(t.hunks);
    HunksFitSnoc(t.hunks[..|t.hunks| - 1], t.hunks[|t.hunks| - 1]);
    hide HunksFit, BodyFits, HeaderFits, LastWhole, BehindUpdate, Trim, Cut;
  }

  lemma {:induction false} HunkDrops(t: PatchTree) returns (u: PatchTree, line: string)
    requires Fits(t) && t.begin.Some? && t.closing == [] && t.hunks != [] && HasBody(t.hunks[|t.hunks| - 1])
    ensures Fits(u) && Extend(u, line) == Some(t)
  {
    var front, h := t.hunks[..|t.hunks| - 1], t.hunks[|t.hunks| - 1];
    hide Fits, HunksFit, BodyFits, HeaderFits, LastWhole, IsBodyLine, IsPlain, Cut, Extend, ExtendUpdate;
    LastFitsWhole(t);
    var g: HunkText;
    if h.AddText? {
      g, line := AddedDrops(h);
      BehindLast(front, g);
      PlusIsPlain(t.(hunks := front + [g]), line);
    } else {
      if h.chunks != [] {
        g, line := ChunksBodyDrops(h);
      } else {
        g, line := PlainBodyDrops(h);
      }
      BehindLast(front, g);
      IsBodyPlain(t.(hunks := front + [g]), line);
    }
    SameHeaderFits(g, h);
    u := BodyDrops(t, g, line);
  }

  /** A header is what its line says. */
  lemma {:induction false} HeaderOpens(h: HunkText, behindUpdate: bool)
    requires HeaderFits(h, behindUpdate) && BodyFits(h) && !HasBody(h)
    ensures OpenedBy(h.header, Cut(h.header, behindUpdate)) == Some(h)
  {
    hide Cut, ChunksFit, AllEndOfFile, TrimEnd;
    var trimmed := Cut(h.header, behindUpdate);
    match h {
      case AddText(_, path, _) => Rest("*** Add File: ", path);
      case DeleteText(_, path) =>
        Rest("*** Delete File: ", path);
        assert trimmed[4] == 'D';
        NoFifth("*** Add File: ", trimmed);
      case UpdateText(_, path, _, _, _, _, _) =>
        Rest("*** Update File: ", path);
        assert trimmed[4] == 'U';
        NoFifth("*** Add File: ", trimmed);
        NoFifth("*** Delete File: ", trimmed);
    }
  }

  lemma Rest(prefix: string, path: string)
    ensures prefix <= prefix + path && (prefix + path)[|prefix|..] == path
  {
  }

  lemma {:induction false} HeaderDrops(t: PatchTree) returns (u: PatchTree, line: string)
    requires Fits(t) && t.begin.Some? && t.closing == [] && t.hunks != [] && !HasBody(t.hunks[|t.hunks| - 1])
    ensures Fits(u) && Extend(u, line) == Some(t)
  {
    var front, h := t.hunks[..|t.hunks| - 1], t.hunks[|t.hunks| - 1];
    LastFitsWhole(t);
    hide HunksFit, BodyFits, HeaderFits, LastWhole, Cut, Trim, Extend, OpenedBy, HasBody, BehindUpdate;
    u, line := t.(hunks := front), h.header;
    FrontAndLast(t.hunks);
    HeaderOpens(h, BehindUpdate(front));
    OpenExtend(u, line);
  }

  lemma {:induction false} ClosingDrops(t: PatchTree) returns (u: PatchTree, line: string)
    requires Fits(t) && t.begin.Some? && t.closing != []
    ensures Fits(u) && Extend(u, line) == Some(t)
  {
    var k := |t.closing| - 1;
    hide HunksFit, LastWhole, Cut, Trim, BehindUpdate;
    line := t.closing[k];
    u := t.(closing := t.closing[..k]);
    FrontAndLast(t.closing);
    if k == 0 {
      EndExtend(u, line);
      assert t.closing == [line];
    }
    hide OpenedBy, ExtendBody;
  }

  lemma {:induction false} IdDrops(t: PatchTree) returns (u: PatchTree, line: string)
    requires Fits(t) && t.begin.Some? && t.closing == [] && t.hunks == [] && t.environment.Some?
    ensures Fits(u) && Extend(u, line) == Some(t)
  {
    hide HunksFit, Cut, Trim, Extend;
    line := t.environment.value;
    u := t.(environment := None, environmentId := None);
    CutIsTrim(line);
    IdExtend(u, line);
  }

  lemma {:induction false} BeginDrops(t: PatchTree)
    requires Fits(t) && t.begin.Some? && t.closing == [] && t.hunks == [] && t.environment.None?
    ensures Fits(NO_LINES) && Extend(NO_LINES, t.begin.value) == Some(t)
  {
    hide HunksFit, Cut, Trim;
  }

  /** Every tree but the empty one is one with a line less, and this line. */
  lemma {:induction false} LastLine(t: PatchTree) returns (u: PatchTree, line: string)
    requires Fits(t) && t != NO_LINES
    ensures Fits(u) && Extend(u, line) == Some(t)
  {
    OnlyEmpty(t);
    hide Fits, Extend, HasBody;
    if t.closing != [] {
      u, line := ClosingDrops(t);
    } else if t.hunks != [] {
      if HasBody(t.hunks[|t.hunks| - 1]) {
        u, line := HunkDrops(t);
      } else {
        u, line := HeaderDrops(t);
      }
    } else if t.environment.Some? {
      u, line := IdDrops(t);
    } else {
      u, line := NO_LINES, t.begin.value;
      BeginDrops(t);
    }
  }

  lemma OnlyEmpty(t: PatchTree)
    requires Fits(t) && t != NO_LINES
    ensures t.begin.Some?
  {
  }

  // ---------------------------------------------------------------- all lines

  lemma {:induction false} FeedLinesSnoc(s: State, lines: seq<string>, line: string)
    ensures var fed := FeedLines(s, lines);
      FeedLines(s, lines + [line]) == if fed.error.Some? then fed else FeedLine(fed.at.state, line)
    decreases |lines|
  {
    hide FeedLine;
    if lines == [] {
      assert [] + [line] == [line] && [line][1..] == [];
      FeedLineEmptiesBuffer(s, line);
    } else {
      assert (lines + [line])[1..] == lines[1..] + [line];
      var fed := FeedLine(s, lines[0]);
      if fed.error.None? {
        FeedLinesSnoc(fed.at.state, lines[1..], line);
      }
    }
  }

  /** The lines of a tree are read, up to the state it stands for. */
  lemma {:induction false} TreeReads(t: PatchTree)
    requires Fits(t)
    ensures FeedLines(START, Yield(t)) == Fed(Snapshot("", StateOf(t)), None)
    decreases |Yield(t)|
  {
    if t == NO_LINES {
      NoLinesState();
    } else {
      hide Fits, Extend, StateOf, FeedLines, FeedLine;
      var u, line := LastLine(t);
      ExtendStep(u, line);
      hide Yield;
      TreeReads(u);
      FeedLinesSnoc(START, Yield(u), line);
    }
  }

  lemma NoLinesState()
    ensures Fits(NO_LINES) && Yield(NO_LINES) == [] && StateOf(NO_LINES) == START
  {
    NoChunksYield();
    NoHunks();
    hide HunksYield, HunksOf;
  }

  /** The lines are read up to the tree of the first `n`, and the next line, if any, has no place behind it. */
  ghost predicate ReadUpTo(lines: seq<string>, t: PatchTree, n: nat) {
    && n <= |lines| && Fits(t) && Yield(t) == lines[..n]
    && if n == |lines| then FeedLines(START, lines) == Fed(Snapshot("", StateOf(t)), None)
       else Extend(t, lines[n]).None? && FeedLines(START, lines).error == Some(ErrorAt(t, lines[n]))
  }

  lemma ReadStuck(front: seq<string>, line: string, t: PatchTree, n: nat)
    requires ReadUpTo(front, t, n) && n < |front|
    ensures ReadUpTo(front + [line], t, n)
  {
    hide Fits, Extend, StateOf, FeedLines, FeedLine, Yield, ErrorAt;
    FeedLinesSnoc(START, front, line);
    assert (front + [line])[..n] == front[..n];
  }

  lemma ReadOn(front: seq<string>, line: string, t: PatchTree)
    requires ReadUpTo(front, t, |front|)
    ensures match Extend(t, line)
      case Some(u) => ReadUpTo(front + [line], u, |front| + 1)
      case None => ReadUpTo(front + [line], t, |front|)
  {
    hide Fits, Extend, StateOf, FeedLines, FeedLine, Yield, ErrorAt;
    var all := front + [line];
    assert front[..|front|] == front && all[..|front|] == front && all[..|all|] == all;
    FeedLinesSnoc(START, front, line);
    ExtendStep(t, line);
  }

  lemma {:induction false} ReadHasTree(lines: seq<string>) returns (t: PatchTree, n: nat)
    ensures ReadUpTo(lines, t, n)
    decreases |lines|
  {
    if lines == [] {
      t, n := NO_LINES, 0;
      NoLinesState();
    } else {
      hide ReadUpTo, Extend;
      var front, line := lines[..|lines| - 1], lines[|lines| - 1];
      FrontAndLast(lines);
      t, n := ReadHasTree(front);
      if n != |front| {
        AtMost(front, t, n);
        ReadStuck(front, line, t, n);
      } else {
        ReadOn(front, line, t);
        if Extend(t, line).Some? {
          t, n := Extend(t, line).value, n + 1;
        }
      }
    }
  }

  lemma AtMost(lines: seq<string>, t: PatchTree, n: nat)
    requires ReadUpTo(lines, t, n)
    ensures n <= |lines|
  {
  }

  ghost predicate IsTreeOf(t: PatchTree, lines: seq<string>) {
    Fits(t) && Yield(t) == lines
  }

  /** Lines are read without an error if and only if they are those of a tree; and the state behind them is
      what the tree means. */
  lemma LinesIff(lines: seq<string>)
    ensures FeedLines(START, lines).error.None? <==> exists t :: IsTreeOf(t, lines)
    ensures forall t :: IsTreeOf(t, lines) ==> FeedLines(START, lines) == Fed(Snapshot("", StateOf(t)), None)
  {
    var t, n := ReadHasTree(lines);
    hide Fits, Yield, StateOf, FeedLines, Extend, ErrorAt;
    assert lines[..|lines|] == lines;
    if n == |lines| {
      assert IsTreeOf(t, lines);
    }
    forall u | IsTreeOf(u, lines)
      ensures FeedLines(START, lines) == Fed(Snapshot("", StateOf(u)), None)
    {
      TreeReads(u);
    }
  }

  /** There is a place for a line behind a tree if and only if the lines, with this one, are those of a tree. */
  lemma PlaceForIff(t: PatchTree, line: string)
    requires Fits(t)
    ensures Extend(t, line).Some? <==> exists u :: IsTreeOf(u, Yield(t) + [line])
  {
    hide Fits, Yield, StateOf, FeedLines, FeedLine, Extend, ErrorAt;
    ExtendStep(t, line);
    if Extend(t, line).Some? {
      assert IsTreeOf(Extend(t, line).value, Yield(t) + [line]);
    }
    LinesIff(Yield(t) + [line]);
    TreeReads(t);
    FeedLinesSnoc(START, Yield(t), line);
  }

  /** Which error, exactly: reading stops at the first line without a place, with the error that line has
      there. */
  lemma ErrorIff(lines: seq<string>, e: ParseError)
    ensures FeedLines(START, lines).error == Some(e) <==>
      exists n: nat, t ::
        n < |lines| && IsTreeOf(t, lines[..n]) && Extend(t, lines[n]).None? && ErrorAt(t, lines[n]) == e
  {
    var t, n := ReadHasTree(lines);
    hide Fits, Yield, StateOf, FeedLines, FeedLine, Extend, ErrorAt;
    if n < |lines| {
      assert IsTreeOf(t, lines[..n]);
    }
    forall m: nat, u | m < |lines| && IsTreeOf(u, lines[..m]) && Extend(u, lines[m]).None?
      ensures FeedLines(START, lines).error == Some(ErrorAt(u, lines[m]))
    {
      StopsAt(lines, m, u);
    }
  }

  lemma StopsAt(lines: seq<string>, m: nat, u: PatchTree)
    requires m < |lines| && IsTreeOf(u, lines[..m]) && Extend(u, lines[m]).None?
    ensures FeedLines(START, lines).error == Some(ErrorAt(u, lines[m]))
  {
    hide Fits, Yield, StateOf, FeedLine, Extend, ErrorAt, FeedLines;
    TreeReads(u);
    ExtendStep(u, lines[m]);
    FeedLinesSnoc(START, lines[..m], lines[m]);
    assert lines[..m] + [lines[m]] == lines[..m + 1];
    assert lines == lines[..m + 1] + lines[m + 1..];
    ErrorStays(START, lines[..m + 1], lines[m + 1..]);
  }

  lemma {:induction false} ErrorStays(s: State, a: seq<string>, b: seq<string>)
    requires FeedLines(s, a).error.Some?
    ensures FeedLines(s, a + b) == FeedLines(s, a)
    decreases |a|
  {
    hide FeedLine;
    if a != [] {
      assert (a + b)[1..] == a[1..] + b;
      var fed := FeedLine(s, a[0]);
      if fed.error.None? {
        ErrorStays(fed.at.state, a[1..], b);
      }
    }
  }

  // ---------------------------------------------------------------- whole texts

  lemma {:induction false} CheckWhole(t: PatchTree, s: State)
    requires s.hunks == HunksOf(t.hunks) && LastWhole(t.hunks)
    ensures CheckNotEmpty(s) == Ok(s)
  {
    hide HunksOf, HunkOf, UpdateFileChunk.IsEmpty;
    if t.hunks == [] {
      NoHunks();
    } else {
      LastHunk(t.hunks);
      KindOf(t.hunks[|t.hunks| - 1]);
    }
  }

  lemma ClosedIsWhole(t: PatchTree)
    requires Fits(t) && t.begin.Some? && t.closing != []
    ensures LastWhole(t.hunks)
  {
    hide HunksFit, LastWhole, Cut, Trim;
  }

  /** What an unterminated end marker does behind a tree. */
  lemma {:induction false} EndFinishes(t: PatchTree, last: string)
    requires Fits(t) && t.begin.Some? && Trim(last) == "*** End Patch"
    ensures Finished(Snapshot(last, StateOf(t))) ==
      if LastWhole(t.hunks) then Fed(Snapshot("", Numbered(StateOf(t)).(mode := EndedPatch)), None)
      else Fed(Snapshot("", Numbered(StateOf(t))), Some(InvalidHunk(
        if BehindUpdate(t.hunks) && t.hunks[|t.hunks| - 1].chunks == [] then HeaderLine(t) else |Yield(t)| + 1)))
  {
    IdIsLine(t);
    hide *;
    FinishAt(StateOf(t), last);
    if LastWhole(t.hunks) {
      NumberedHunks(t);
      CheckWhole(t, Numbered(StateOf(t)));
    } else {
      if t.closing != [] {
        ClosedIsWhole(t);
      } else {
        CheckHere(t);
      }
    }
  }

  lemma NumberedHunks(t: PatchTree)
    ensures Numbered(StateOf(t)).hunks == HunksOf(t.hunks)
  {
  }

  lemma EndIsNotBlank(last: string)
    requires Trim(last) == "*** End Patch"
    ensures last != ""
  {
    TrimKeeps("");
  }

  lemma RestAt(s: State, last: string)
    requires Trim(last) == "*** End Patch"
    ensures FeedRest(Snapshot(last, s)) == match CheckNotEmpty(Numbered(s))
      case Ok(checked) => Fed(Snapshot("", checked.(mode := EndedPatch)), None)
      case Err(e) => Fed(Snapshot("", Numbered(s)), Some(e))
  {
    hide Trim, CheckNotEmpty, FeedLine;
    EndIsNotBlank(last);
  }

  lemma FinishAt(s: State, last: string)
    requires Trim(last) == "*** End Patch"
    ensures Finished(Snapshot(last, s)) == match CheckNotEmpty(Numbered(s))
      case Ok(checked) => Fed(Snapshot("", checked.(mode := EndedPatch)), None)
      case Err(e) => Fed(Snapshot("", Numbered(s)), Some(e))
  {
    hide FeedRest, Trim, CheckNotEmpty, FeedLine, Numbered;
    RestAt(s, last);
  }

  /** What is left over at the end, if it is no end marker, is one more line; a patch that is then not closed
      is invalid. */
  lemma {:induction false} RestFinishes(t: PatchTree, last: string)
    requires Fits(t) && Trim(last) != "*** End Patch"
    ensures Finished(Snapshot(last, StateOf(t))) ==
      if last == "" then Fed(Snapshot("", StateOf(t)), OpenError(t))
      else
        match Extend(t, last)
        case None => Fed(Snapshot("", Numbered(StateOf(t))), Some(ErrorAt(t, last)))
        case Some(u) => Fed(Snapshot("", StateOf(u)), OpenError(u))
  {
    ExtendStep(t, last);
    ClosedIff(t);
    if Extend(t, last).Some? {
      ClosedIff(Extend(t, last).value);
    }
    hide Fits, Extend, StateOf, ErrorAt, FeedLine, Takes, Trim, OpenError;
  }

  function OpenError(t: PatchTree): Option<ParseError> {
    if t.closing == [] then Some(InvalidPatch) else None
  }

  lemma ClosedIff(t: PatchTree)
    requires Fits(t)
    ensures OpenError(t) == if StateOf(t).mode.EndedPatch? then None else Some(InvalidPatch)
  {
    hide HunksFit, LastWhole, Cut, Trim, HeaderLine, Yield, HunksOf;
  }

  /** The hunks and the id of a finished tree over these lines. */
  ghost predicate Derives(lines: seq<string>, hunks: seq<Hunk>, environmentId: Option<string>) {
    exists t ::
      IsTreeOf(t, lines) && LastWhole(t.hunks) && HunksOf(t.hunks) == hunks && t.environmentId == environmentId
  }

  lemma TreeHasBegun(t: PatchTree, lines: seq<string>)
    requires IsTreeOf(t, lines) && lines != []
    ensures t.begin.Some?
  {
    NoLinesState();
    hide Yield;
  }

  /** What streaming lines that end in the end marker gives, if the lines before it, each rid of one final CR,
      are those of this tree. */
  ghost predicate GivesTree(r: Result<ParsedPatch, ParseError>, t: PatchTree, text: string) {
    r == if LastWhole(t.hunks) then Ok(ParsedPatch(HunksOf(t.hunks), text, t.environmentId))
         else Err(InvalidHunk(
           if BehindUpdate(t.hunks) && t.hunks[|t.hunks| - 1].chunks == [] then HeaderLine(t) else |Yield(t)| + 1))
  }

  lemma {:induction false} FedTree(front: seq<string>, last: string, t: PatchTree)
    requires IsTreeOf(t, StripCrs(front))
    requires forall i :: 0 <= i < |front + [last]| ==> NoLf((front + [last])[i])
    ensures Feed(Snapshot("", START), JoinLf(front + [last])) == Fed(Snapshot(last, StateOf(t)), None)
  {
    hide Feed, FeedLines, JoinLf, StripCrs, NoLf, Fits, Yield, StateOf;
    var all := front + [last];
    assert all[..|all| - 1] == front && all[|all| - 1] == last;
    FeedPieces(START, all);
    TreeReads(t);
  }

  lemma {:induction false} StreamedTree(front: seq<string>, last: string, t: PatchTree)
    requires front != [] && Trim(last) == "*** End Patch" && IsTreeOf(t, StripCrs(front))
    requires forall i :: 0 <= i < |front + [last]| ==> NoLf((front + [last])[i])
    ensures GivesTree(Streamed(front + [last]), t, JoinLf(front + [last]))
  {
    hide Feed, FeedLines, Finished, JoinLf, StripCrs, NoLf, Trim, Fits, Yield, LastWhole, HeaderLine, BehindUpdate,
         HunksOf, ModeOf;
    FedTree(front, last, t);
    NotNone(front);
    TreeHasBegun(t, StripCrs(front));
    EndFinishes(t, last);
  }

  lemma StreamedError(front: seq<string>, last: string)
    requires forall i :: 0 <= i < |front + [last]| ==> NoLf((front + [last])[i])
    ensures var error := FeedLines(START, StripCrs(front)).error;
      error.Some? ==> Streamed(front + [last]) == Err(error.value)
  {
    var all := front + [last];
    assert all[..|all| - 1] == front;
    hide Feed, FeedLines, Finished, JoinLf, StripCrs, NoLf;
    FeedPieces(START, all);
  }

  /** A success exactly by a whole tree over the lines before the end marker; an error at the first line
      without a place, or at the end. */
  lemma {:induction false} StreamedOutcome(front: seq<string>, last: string)
    requires front != [] && Trim(last) == "*** End Patch"
    requires forall i :: 0 <= i < |front + [last]| ==> NoLf((front + [last])[i])
    ensures var r, lines := Streamed(front + [last]), StripCrs(front);
      && (FeedLines(START, lines).error.Some? ==> r == Err(FeedLines(START, lines).error.value))
      && forall t :: IsTreeOf(t, lines) ==> GivesTree(r, t, JoinLf(front + [last]))
  {
    hide GivesTree, Streamed, FeedLines, StripCrs, NoLf, Trim, JoinLf, IsTreeOf;
    StreamedError(front, last);
    forall t | IsTreeOf(t, StripCrs(front))
      ensures GivesTree(Streamed(front + [last]), t, JoinLf(front + [last]))
    {
      StreamedTree(front, last, t);
    }
  }

  lemma NotNone(front: seq<string>)
    requires front != []
    ensures StripCrs(front) != []
  {
  }

  predicate HasMarkers(lines: seq<string>) {
    |lines| >= 2 && Trim(lines[0]) == "*** Begin Patch" && Trim(lines[|lines| - 1]) == "*** End Patch"
  }

  /** A heredoc, as a shell would have unwrapped it: these lines between an opening and an `EOF`. */
  predicate IsHeredoc(lines: seq<string>, inner: seq<string>) {
    && |lines| == |inner| + 2 && inner == lines[1..|lines| - 1]
    && (lines[0] == "<<EOF" || lines[0] == "<<'EOF'" || lines[0] == "<<\"EOF\"")
    && |lines[|lines| - 1]| >= 3 && lines[|lines| - 1][|lines[|lines| - 1]| - 3..] == "EOF"
  }

  /** The lines the parser is to read: those of the text, or in lenient mode those of a heredoc. */
  predicate Unwraps(patch: string, mode: ParseMode, inner: seq<string>) {
    var lines := Lines(Trim(patch));
    HasMarkers(inner) && (inner == lines || (mode.Lenient? && IsHeredoc(lines, inner)))
  }

  lemma StrictIff(lines: seq<string>)
    ensures StrictBoundaries(lines) == if HasMarkers(lines) then Ok(lines) else Err(InvalidPatch)
  {
    OneLineIsNoPatch(lines);
    hide Trim;
  }

  lemma NotBoth(lines: seq<string>)
    requires HasMarkers(lines)
    ensures !IsHeredocStart(lines[0])
  {
    if IsHeredocStart(lines[0]) {
      HeredocStartIsNoMarker(lines[0]);
    }
  }

  lemma BoundariesUnwrap(patch: string, mode: ParseMode)
    ensures var r := Boundaries(Lines(Trim(patch)), mode);
      && (r.Err? ==> r.error == InvalidPatch)
      && forall inner :: Unwraps(patch, mode, inner) <==> r == Ok(inner)
  {
    var lines := Lines(Trim(patch));
    hide Lines, Trim, StrictBoundaries, HasMarkers;
    StrictIff(lines);
    if HasMarkers(lines) {
      NotBoth(lines);
    }
    if |lines| >= 2 {
      StrictIff(lines[1..|lines| - 1]);
      AtLeastTwo(lines[1..|lines| - 1]);
    }
  }

  lemma AtLeastTwo(lines: seq<string>)
    ensures HasMarkers(lines) ==> |lines| >= 2
  {
  }

  /** The lines in front of the end marker, as the parser processes them: rid of one final CR each. */
  function Front(inner: seq<string>): seq<string> {
    if inner == [] then [] else StripCrs(inner[..|inner| - 1])
  }

  predicate GivesHunks(r: Result<ParsedPatch, ParseError>, hunks: seq<Hunk>, environmentId: Option<string>) {
    r.Ok? && r.value.hunks == hunks && r.value.environmentId == environmentId
  }

  /** The text unwraps to lines that derive these hunks and this id. */
  ghost predicate Denotes(patch: string, mode: ParseMode, hunks: seq<Hunk>, environmentId: Option<string>) {
    exists inner :: Unwraps(patch, mode, inner) && Derives(Front(inner), hunks, environmentId)
  }

  /** For every text and both modes: parsing gives these hunks and this id if and only if they are what the
      text denotes by the grammar. */
  lemma ParseIff(patch: string, mode: ParseMode, hunks: seq<Hunk>, environmentId: Option<string>)
    ensures GivesHunks(Parsed(patch, mode), hunks, environmentId) <==> Denotes(patch, mode, hunks, environmentId)
  {
    hide Lines, Trim, Unwraps, Streamed, Boundaries, Derives, GivesHunks;
    BoundariesUnwrap(patch, mode);
    var r := Boundaries(Lines(Trim(patch)), mode);
    if r.Ok? {
      UnwrappedGives(patch, mode, r.value, hunks, environmentId);
    } else {
      NothingGiven(r.error, hunks, environmentId);
    }
  }

  lemma NothingGiven(e: ParseError, hunks: seq<Hunk>, environmentId: Option<string>)
    ensures !GivesHunks(Err(e), hunks, environmentId)
  {
  }

  lemma UnwrappedGives(patch: string, mode: ParseMode, inner: seq<string>, hunks: seq<Hunk>,
                       environmentId: Option<string>)
    requires Unwraps(patch, mode, inner)
    ensures GivesHunks(Streamed(inner), hunks, environmentId) <==> Derives(Front(inner), hunks, environmentId)
  {
    hide Lines, Trim, Unwraps, Streamed, Derives, GivesHunks, StripCrs, NoLf;
    UnwrappedLines(patch, mode, inner);
    FrontAndLast(inner);
    StreamedIff(inner[..|inner| - 1], inner[|inner| - 1], hunks, environmentId);
  }

  lemma UnwrappedLines(patch: string, mode: ParseMode, inner: seq<string>)
    requires Unwraps(patch, mode, inner)
    ensures |inner| >= 2 && Trim(inner[|inner| - 1]) == "*** End Patch"
    ensures forall i :: 0 <= i < |inner| ==> NoLf(inner[i])
  {
    hide Lines, Trim, NoLf;
    AllHaveNoLf(Trim(patch));
  }

  lemma AllHaveNoLf(s: string)
    ensures forall i :: 0 <= i < |Lines(s)| ==> NoLf(Lines(s)[i])
  {
    JoinSplit(s);
    var pieces := SplitLf(s);
    hide SplitLf, NoLf, StripCrs;
    StrippedHaveNoLf(pieces[..|pieces| - 1]);
  }

  lemma {:induction false} StreamedIff(front: seq<string>, last: string, hunks: seq<Hunk>,
                                       environmentId: Option<string>)
    requires front != [] && Trim(last) == "*** End Patch"
    requires forall i :: 0 <= i < |front + [last]| ==> NoLf((front + [last])[i])
    ensures GivesHunks(Streamed(front + [last]), hunks, environmentId)
            <==> Derives(StripCrs(front), hunks, environmentId)
  {
    var lines := StripCrs(front);
    hide Streamed, StripCrs, FeedLines, Fits, Yield, LastWhole, HunksOf, NoLf, HeaderLine, BehindUpdate, Trim;
    StreamedOutcome(front, last);
    LinesIff(lines);
    if FeedLines(START, lines).error.None? {
      var t :| IsTreeOf(t, lines);
    }
  }

  /** The errors of whole texts: an invalid patch where nothing unwraps; else that of the first line without a
      place, or that of a hunk which is not whole at the end. */
  lemma ParseErrors(patch: string, mode: ParseMode, inner: seq<string>)
    ensures (forall other :: !Unwraps(patch, mode, other)) ==> Parsed(patch, mode) == Err(InvalidPatch)
    ensures Unwraps(patch, mode, inner) ==>
      var error := FeedLines(START, Front(inner)).error;
      error.Some? ==> Parsed(patch, mode) == Err(error.value)
    ensures forall t :: Unwraps(patch, mode, inner) && IsTreeOf(t, Front(inner)) && !LastWhole(t.hunks) ==>
      Parsed(patch, mode) == Err(InvalidHunk(
        if BehindUpdate(t.hunks) && t.hunks[|t.hunks| - 1].chunks == [] then HeaderLine(t) else |Front(inner)| + 1))
  {
    hide Lines, Trim, Unwraps, Streamed, Boundaries, StripCrs, FeedLines, Fits, Yield, LastWhole, HunksOf, HeaderLine,
         BehindUpdate, NoLf;
    BoundariesUnwrap(patch, mode);
    var r := Boundaries(Lines(Trim(patch)), mode);
    if Unwraps(patch, mode, inner) {
      UnwrappedLines(patch, mode, inner);
      FrontAndLast(inner);
      StreamedOutcome(inner[..|inner| - 1], inner[|inner| - 1]);
    }
  }
}
