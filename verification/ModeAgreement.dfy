/** When the two update modes write the same file. */
module ModeAgreement {
  import opened Text
  import opened TextFile
  import opened LineSearch
  import opened Patch
  import opened FileUpdate
  import opened EditSafety
  import opened ApplyUpdate
  import opened UpdateMeaning
  import opened UpdateResults

  predicate LfLines(lines: seq<SourceLine>) {
    forall i :: 0 <= i < |lines| ==> lines[i].ending == None || lines[i].ending == Some(Lf)
  }

  /** Neither an end-of-file nor a pure-insertion chunk. */
  ghost predicate PlainChunks(chunks: seq<UpdateFileChunk>) {
    forall i :: 0 <= i < |chunks| ==> !chunks[i].isEndOfFile && chunks[i].oldLines != []
  }

  /** The block reads exactly like the pattern, rather than only up to whitespace or punctuation. */
  ghost predicate Verbatim(p: Placement, texts: seq<string>) {
    p.Located? && p.start + |p.pattern| <= |texts| && texts[p.start..p.start + |p.pattern|] == p.pattern
  }

  // ---------------------------------------------------------------- the same lines

  /** Without CR the two ways of splitting a file into lines agree. */
  lemma {:induction false} SameLines(contents: string)
    requires NoCr(contents)
    ensures SplitLines(contents) == Texts(ParseLines(contents)) && LfLines(ParseLines(contents))
    decreases |contents|
  {
    hide ParseLines, SplitLf, FirstBreak;
    if contents == "" {
      NoLines();
    } else if FirstBreak(contents) == |contents| {
      OneLine(contents);
    } else {
      var n := FirstBreak(contents);
      SameLines(contents[n + 1..]);
      FirstLine(contents);
      MoreLines(SourceLine(contents[..n], Some(Lf)), ParseLines(contents[n + 1..]), SplitLf(contents[n + 1..]));
    }
  }

  lemma NoLines()
    ensures SplitLines("") == Texts(ParseLines("")) && LfLines(ParseLines(""))
  {
  }

  lemma OneLine(contents: string)
    requires contents != "" && FirstBreak(contents) == |contents|
    ensures ParseLines(contents) == [SourceLine(contents, None)] && SplitLines(contents) == [contents]
  {
    assert ParseLines(contents) == [SourceLine(contents, None)];
    hide ParseLines, SplitLf;
    assert contents[..|contents|] == contents;
    SplitLfOfPlain(contents);
  }

  lemma FirstLine(contents: string)
    requires NoCr(contents) && FirstBreak(contents) < |contents|
    ensures var n := FirstBreak(contents);
      && SplitLf(contents) == [contents[..n]] + SplitLf(contents[n + 1..])
      && ParseLines(contents) == [SourceLine(contents[..n], Some(Lf))] + ParseLines(contents[n + 1..])
  {
    hide *;
    var n := FirstBreak(contents);
    BreakIsLf(contents);
    FirstParsedLine(contents);
    SplitFirstLine(contents, n);
  }

  lemma BreakIsLf(contents: string)
    requires NoCr(contents) && FirstBreak(contents) < |contents|
    ensures contents[FirstBreak(contents)] == '\n' && Plain(contents[..FirstBreak(contents)])
  {
    var n := FirstBreak(contents);
    hide FirstBreak;
    assert IsBreak(contents[n]);
  }

  lemma FirstParsedLine(contents: string)
    requires FirstBreak(contents) < |contents| && contents[FirstBreak(contents)] == '\n'
    ensures var n := FirstBreak(contents);
      ParseLines(contents) == [SourceLine(contents[..n], Some(Lf))] + ParseLines(contents[n + 1..])
  {
    hide FirstBreak, IsBreak;
  }

  lemma SplitFirstLine(contents: string, n: nat)
    requires n < |contents| && contents[n] == '\n' && Plain(contents[..n])
    ensures SplitLf(contents) == [contents[..n]] + SplitLf(contents[n + 1..])
  {
    hide SplitLf;
    assert contents == contents[..n] + "\n" + contents[n + 1..];
    SplitLfAtBreak(contents[..n], contents[n + 1..]);
  }

  lemma MoreLines(line: SourceLine, lines: seq<SourceLine>, pieces: seq<string>)
    requires pieces != [] && line.ending == Some(Lf) && LfLines(lines)
    requires Texts(lines) == if EndsBlank(pieces) then WithoutLast(pieces) else pieces
    ensures LfLines([line] + lines)
    ensures Texts([line] + lines)
            == if EndsBlank([line.text] + pieces) then WithoutLast([line.text] + pieces) else [line.text] + pieces
  {
    TextsConcat([line], lines);
    SplitLinesCons(line.text, pieces);
  }

  lemma SplitLinesCons(first: string, pieces: seq<string>)
    requires pieces != []
    ensures EndsBlank([first] + pieces) == EndsBlank(pieces)
    ensures WithoutLast([first] + pieces) == [first] + WithoutLast(pieces)
  {
  }

  // ---------------------------------------------------------------- the same places

  lemma SameSearch(lines: seq<string>, pattern: seq<string>, start: nat)
    ensures Seek(lines, pattern, start, false, NormalizeToLf) == Seek(lines, pattern, start, false, PreserveLineEndings)
  {
  }

  lemma SamePlace(lines: seq<string>, chunk: UpdateFileChunk, from: nat)
    requires !chunk.isEndOfFile && chunk.oldLines != []
    ensures AfterContext(lines, chunk, from, NormalizeToLf) == AfterContext(lines, chunk, from, PreserveLineEndings)
    ensures PlaceChunk(lines, chunk, from, NormalizeToLf) == PlaceChunk(lines, chunk, from, PreserveLineEndings)
  {
    hide Seek;
    if chunk.changeContext.Some? {
      SameSearch(lines, [chunk.changeContext.value], from);
    }
    SameSearch(lines, chunk.oldLines, from);
    SameSearch(lines, WithoutLast(chunk.oldLines), from);
  }

  lemma {:induction false} SamePlaces(lines: seq<string>, chunks: seq<UpdateFileChunk>, from: nat)
    requires PlainChunks(chunks)
    ensures Place(lines, chunks, from, NormalizeToLf) == Place(lines, chunks, from, PreserveLineEndings)
    decreases |chunks|
  {
    if chunks != [] {
      SamePlace(lines, chunks[0], from);
      var index := AfterContext(lines, chunks[0], from, PreserveLineEndings);
      if index.Ok? {
        SamePlace(lines, chunks[0], index.value);
        var p := PlaceChunk(lines, chunks[0], index.value, PreserveLineEndings);
        hide AfterContext, PlaceChunk;
        if p.Ok? {
          SamePlaces(lines, chunks[1..], p.value.Next(index.value));
        }
      }
    }
  }

  // ---------------------------------------------------------------- the same texts

  /** Context pairs of a placement name equal lines. */
  ghost predicate NamesEqual(p: Placement) {
    && p.Located?
    && forall k :: (0 <= k < |p.context| && p.context[k].0 < |p.pattern| && p.context[k].1 < |p.replacement|) ==>
         p.pattern[p.context[k].0] == p.replacement[p.context[k].1]
  }

  lemma PlaceNamesEqual(lines: seq<string>, chunk: UpdateFileChunk, from: nat, mode: UpdateMode)
    requires chunk.ContextOk() && chunk.oldLines != []
    ensures var r := PlaceChunk(lines, chunk, from, mode);
      r.Ok? ==> NamesEqual(r.value)
  {
    hide Seek, Increasing;
  }

  ghost predicate AllNameEqual(ps: seq<Placement>) {
    forall i :: 0 <= i < |ps| ==> NamesEqual(ps[i])
  }

  lemma AllNameEqualCons(p: Placement, ps: seq<Placement>)
    requires NamesEqual(p) && AllNameEqual(ps)
    ensures AllNameEqual([p] + ps)
  {
    hide NamesEqual;
  }

  lemma {:induction false} PlacesNameEqual(lines: seq<string>, chunks: seq<UpdateFileChunk>, from: nat,
                                           mode: UpdateMode)
    requires ChunksOk(chunks) && PlainChunks(chunks)
    ensures var r := Place(lines, chunks, from, mode);
      r.Ok? ==> AllNameEqual(r.value)
    decreases |chunks|
  {
    assert AllNameEqual([]);
    hide AfterContext, PlaceChunk, NamesEqual, UpdateFileChunk.ContextOk, AllNameEqual;
    if chunks != [] && AfterContext(lines, chunks[0], from, mode).Ok? {
      var index := AfterContext(lines, chunks[0], from, mode).value;
      var placed := PlaceChunk(lines, chunks[0], index, mode);
      PlaceNamesEqual(lines, chunks[0], index, mode);
      if placed.Ok? {
        var rest := Place(lines, chunks[1..], placed.value.Next(index), mode);
        assert Place(lines, chunks, from, mode) == if rest.Ok? then Ok([placed.value] + rest.value) else rest;
        hide Place;
        PlacesNameEqual(lines, chunks[1..], placed.value.Next(index), mode);
        if rest.Ok? {
          AllNameEqualCons(placed.value, rest.value);
        }
      }
    }
  }

  lemma {:induction false} KeptIsNamed(context: seq<(nat, nat)>, oldLen: nat, j: nat)
    ensures var kept := KeptFrom(context, oldLen, j);
      kept.Some? ==> exists k :: 0 <= k < |context| && context[k] == (kept.value, j)
  {
    if context != [] {
      if context[0].1 == j && context[0].0 < oldLen {
        assert context[0] == (KeptFrom(context, oldLen, j).value, j);
      } else {
        KeptIsNamed(context[1..], oldLen, j);
        if KeptFrom(context, oldLen, j).Some? {
          var k :| 0 <= k < |context[1..]| && context[1..][k] == (KeptFrom(context, oldLen, j).value, j);
          assert context[k + 1] == (KeptFrom(context, oldLen, j).value, j);
        }
      }
    }
  }

  /** Over an exact block, keeping the file's context lines writes the patch's own texts. */
  lemma ExactTarget(source: seq<SourceLine>, p: Placement, ending: LineEnding)
    requires InFile(p, |source|) && Verbatim(p, Texts(source)) && NamesEqual(p)
    ensures Texts(Target(source, p, ending)) == p.replacement
  {
    forall j | 0 <= j < |p.replacement|
      ensures TargetLine(source, p, ending, j).text == p.replacement[j]
    {
      var kept := KeptFrom(p.context, |p.pattern|, j);
      KeptIsNamed(p.context, |p.pattern|, j);
      if kept.Some? {
        assert Texts(source)[p.start..p.start + |p.pattern|][kept.value] == source[p.start + kept.value].text;
      }
    }
  }

  lemma {:induction false} BlockTexts(source: seq<SourceLine>, ps: seq<Placement>, ending: LineEnding)
    requires AllLocated(ps, |source|)
    requires forall i :: 0 <= i < |ps| ==> Verbatim(ps[i], Texts(source)) && NamesEqual(ps[i])
    ensures TextEdits(Blocks(source, ps, ending)) == Flatten(ps, NormalizeToLf)
  {
    if ps != [] {
      var p := ps[0];
      assert InFile(p, |source|);
      ExactTarget(source, p, ending);
      BlockTexts(source, ps[1..], ending);
      hide Target, Verbatim, NamesEqual, Increasing;
      var block := Edit(p.start, |p.pattern|, Target(source, p, ending));
      assert TextEdits([block] + Blocks(source, ps[1..], ending))
             == TextEdits([block]) + TextEdits(Blocks(source, ps[1..], ending));
      assert TextEdits([block]) == OwnEdits(p, NormalizeToLf);
    }
  }

  lemma {:induction false} SortOfSorted<T>(edits: seq<Edit<T>>)
    requires SortedByStart(edits)
    ensures StableSort(edits) == edits
  {
    if edits != [] {
      SortOfSorted(edits[1..]);
      assert [edits[0]] + edits[1..] == edits;
    }
  }

  // ---------------------------------------------------------------- the same contents

  lemma {:induction false} RenderTerminated(lines: seq<SourceLine>)
    requires LfLines(lines)
    ensures Render(Terminate(lines, Lf)) == LfText(Texts(lines))
  {
    if lines != [] {
      RenderTerminated(lines[1..]);
      assert Terminate(lines, Lf)[1..] == Terminate(lines[1..], Lf);
      assert Texts(lines)[1..] == Texts(lines[1..]);
    }
  }

  /** Joining adds no line feed behind a last line that is blank. */
  lemma JoinedTextIff(lines: seq<string>)
    ensures JoinLines(lines) == LfText(lines) <==> !EndsBlank(lines)
  {
    if EndsBlank(lines) {
      var front := WithoutLast(lines);
      assert lines == front + [""];
      JoinWithBlank(front);
      LfTextSnoc(front);
    } else {
      JoinWithBlank(lines);
    }
  }

  lemma {:induction false} LfTextSnoc(lines: seq<string>)
    ensures LfText(lines + [""]) == LfText(lines) + "\n"
  {
    if lines == [] {
      assert lines + [""] == [""];
    } else {
      assert (lines + [""])[1..] == lines[1..] + [""];
      LfTextSnoc(lines[1..]);
    }
  }

  lemma {:induction false} SpliceLfLines(lines: seq<SourceLine>, edits: seq<Edit<SourceLine>>, from: nat)
    requires Ordered(edits, from) && LfLines(lines)
    requires forall i :: 0 <= i < |edits| ==> LfLines(edits[i].newLines)
    ensures LfLines(Splice(lines, edits, from))
    decreases |edits|
  {
    if edits != [] {
      SpliceLfLines(lines, edits[1..], edits[0].End());
    }
  }

  lemma {:induction false} BlocksLfLines(source: seq<SourceLine>, ps: seq<Placement>)
    requires AllLocated(ps, |source|) && LfLines(source)
    ensures forall i :: 0 <= i < |Blocks(source, ps, Lf)| ==> LfLines(Blocks(source, ps, Lf)[i].newLines)
  {
    if ps != [] {
      assert InFile(ps[0], |source|);
      BlocksLfLines(source, ps[1..]);
      assert LfLines(Target(source, ps[0], Lf));
    }
  }

  /** On a file without CR, with every block matched exactly and no end-of-file or insertion
      chunk: NormalizeToLf replaces whole blocks and PreserveLineEndings only the gaps between
      context lines, yet both write the same text exactly when its last line is not blank. */
  lemma ModesAgreeIff(contents: string, chunks: seq<UpdateFileChunk>, ps: seq<Placement>)
    requires NoCr(contents) && ChunksOk(chunks) && PlainChunks(chunks)
    requires var texts := Texts(ParseLines(contents));
      && Place(texts, chunks, 0, PreserveLineEndings) == Ok(ps)
      && forall i :: 0 <= i < |ps| ==> Verbatim(ps[i], texts)
    ensures Ordered(Flatten(ps, NormalizeToLf), 0)
    ensures var result := Splice(Texts(ParseLines(contents)), Flatten(ps, NormalizeToLf), 0);
      && Updated(contents, chunks, NormalizeToLf) == Ok(JoinLines(result))
      && Updated(contents, chunks, PreserveLineEndings) == Ok(LfText(result))
      && (Updated(contents, chunks, NormalizeToLf) == Updated(contents, chunks, PreserveLineEndings)
          <==> !EndsBlank(result))
  {
    hide Place, Flatten, Splice, Ordered, ParseLines, Render, StableSort, LineEdits, Blocks, Verbatim, SplitLines,
         JoinLines, ApplyBackwards, Applicable, ComputedEdits, LfText;
    var lines := ParseLines(contents);
    SameLines(contents);
    NormalizedResult(lines, chunks, ps);
    PreservedResult(lines, chunks, ps);
    ParsedUpdatesNeverPanic(contents, chunks, PreserveLineEndings);
    JoinedTextIff(Splice(Texts(lines), Flatten(ps, NormalizeToLf), 0));
  }

  lemma NormalizedResult(lines: seq<SourceLine>, chunks: seq<UpdateFileChunk>, ps: seq<Placement>)
    requires ChunksOk(chunks) && PlainChunks(chunks)
    requires Place(Texts(lines), chunks, 0, PreserveLineEndings) == Ok(ps)
    ensures var edits := Flatten(ps, NormalizeToLf);
      && ComputedEdits(Texts(lines), chunks, NormalizeToLf) == Ok(edits)
      && Ordered(edits, 0) && Applicable(edits, |lines|)
      && ApplyBackwards(Texts(lines), edits) == Splice(Texts(lines), edits, 0)
  {
    hide Place, Flatten, Splice, Ordered, StableSort, ApplyBackwards, InFileOrder, Applicable, Within;
    var edits := Flatten(ps, NormalizeToLf);
    SamePlaces(Texts(lines), chunks, 0);
    EditsAreFlattened(Texts(lines), chunks, 0, NormalizeToLf);
    assert AllTame(Texts(lines), chunks, NormalizeToLf);
    PlacedInFileOrder(Texts(lines), chunks, 0, NormalizeToLf);
    PlacesNameEqual(Texts(lines), chunks, 0, NormalizeToLf);
    FlattenLocated(ps, 0, |lines|);
    WithinSorted(edits, 0, |lines|);
    SortOfSorted(edits);
    WithinBounds(edits, 0, |lines|);
    BackwardsIsSplice(Texts(lines), edits, 0);
    assert Texts(lines)[..0] + Splice(Texts(lines), edits, 0) == Splice(Texts(lines), edits, 0);
  }

  lemma {:induction false} FlattenLocated(ps: seq<Placement>, from: nat, n: nat)
    requires InFileOrder(ps, from, n) && from <= n && AllNameEqual(ps)
    ensures Within(Flatten(ps, NormalizeToLf), from, n)
    decreases |ps|
  {
    if ps != [] {
      var p := ps[0];
      FlattenLocated(ps[1..], p.start + |p.pattern|, n);
      assert Flatten(ps, NormalizeToLf)[1..] == Flatten(ps[1..], NormalizeToLf);
    }
  }

  lemma AllAreLocated(ps: seq<Placement>)
    requires AllNameEqual(ps)
    ensures forall i :: 0 <= i < |ps| ==> ps[i].Located?
  {
    forall i | 0 <= i < |ps|
      ensures ps[i].Located?
    {
      assert NamesEqual(ps[i]);
    }
  }

  lemma PreservedResult(lines: seq<SourceLine>, chunks: seq<UpdateFileChunk>, ps: seq<Placement>)
    requires ChunksOk(chunks) && PlainChunks(chunks) && LfLines(lines)
    requires Place(Texts(lines), chunks, 0, PreserveLineEndings) == Ok(ps)
    requires forall i :: 0 <= i < |ps| ==> Verbatim(ps[i], Texts(lines))
    ensures Ordered(Flatten(ps, NormalizeToLf), 0) && PreferredEnding(lines) == Lf
    ensures var computed := ComputedEdits(Texts(lines), chunks, PreserveLineEndings);
      && computed.Ok? && Ordered(LineEdits(computed.value, Lf), 0)
      && Render(Terminate(Splice(lines, LineEdits(computed.value, Lf), 0), Lf))
         == LfText(Splice(Texts(lines), Flatten(ps, NormalizeToLf), 0))
  {
    hide Place, Flatten, Splice, Ordered, ComputedEdits, LineEdits, Verbatim, InFile, Blocks, Render, LfText,
         NamesEqual;
    NormalizedResult(lines, chunks, ps);
    PlacesNameEqual(Texts(lines), chunks, 0, PreserveLineEndings);
    AllAreLocated(ps);
    BlocksMeaning(lines, chunks, ps, Lf);
    BlockTexts(lines, ps, Lf);
    BlocksLfLines(lines, ps);
    TextsOfSplice(lines, Blocks(lines, ps, Lf), 0);
    SpliceLfLines(lines, Blocks(lines, ps, Lf), 0);
    RenderTerminated(Splice(lines, Blocks(lines, ps, Lf), 0));
  }

  /** Where one mode cannot place the chunks, the other fails in the same way. */
  lemma ModesFailAlike(contents: string, chunks: seq<UpdateFileChunk>)
    requires NoCr(contents) && ChunksOk(chunks) && PlainChunks(chunks)
    ensures Updated(contents, chunks, NormalizeToLf).Err? <==> Updated(contents, chunks, PreserveLineEndings).Err?
    ensures var r := Updated(contents, chunks, NormalizeToLf);
      r.Err? ==> Updated(contents, chunks, PreserveLineEndings) == Err(r.error)
  {
    hide Place, Flatten, Splice, ParseLines, StableSort, SplitLines, ApplyBackwards;
    var texts := Texts(ParseLines(contents));
    ParsedUpdatesNeverPanic(contents, chunks, PreserveLineEndings);
    SameLines(contents);
    SamePlaces(texts, chunks, 0);
    EditsAreFlattened(texts, chunks, 0, NormalizeToLf);
    EditsAreFlattened(texts, chunks, 0, PreserveLineEndings);
  }
}
