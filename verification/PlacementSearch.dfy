/** Where every chunk is searched for, and when a chunk is not found. */
module PlacementSearch {
  import opened Text
  import opened TextFile
  import opened LineSearch
  import opened Patch
  import opened FileUpdate
  import opened EditSafety

  // ---------------------------------------------------------------- one search

  /** The places a search may answer: from `start` on, or for the end of the file only there. */
  predicate InRange(lines: seq<string>, pattern: seq<string>, start: nat, eof: bool, mode: UpdateMode, i: nat) {
    if !eof || pattern == [] then start <= i
    else i + |pattern| == |lines| && (mode == PreserveLineEndings ==> start <= i)
  }

  ghost predicate NoneBefore(lines: seq<string>, pattern: seq<string>, start: nat, eof: bool, mode: UpdateMode,
                             level: Level, end: nat)
  {
    forall j: nat :: InRange(lines, pattern, start, eof, mode, j) && j < end ==> !MatchesAt(level, lines, pattern, j)
  }

  ghost predicate Nowhere(lines: seq<string>, pattern: seq<string>, start: nat, eof: bool, mode: UpdateMode,
                          level: Level)
  {
    forall j: nat :: InRange(lines, pattern, start, eof, mode, j) ==> !MatchesAt(level, lines, pattern, j)
  }

  /** `i` is the first place where the pattern stands at this level, and it stands nowhere at a stricter one. */
  ghost predicate FoundAt(lines: seq<string>, pattern: seq<string>, start: nat, eof: bool, mode: UpdateMode, i: nat,
                          level: Level)
  {
    && InRange(lines, pattern, start, eof, mode, i) && MatchesAt(level, lines, pattern, i)
    && NoneBefore(lines, pattern, start, eof, mode, level, i)
    && forall l :: Rank(l) < Rank(level) ==> Nowhere(lines, pattern, start, eof, mode, l)
  }

  ghost predicate Found(lines: seq<string>, pattern: seq<string>, start: nat, eof: bool, mode: UpdateMode, i: nat) {
    exists level :: FoundAt(lines, pattern, start, eof, mode, i, level)
  }

  /** Found at a place means answered by the search, and nowhere up to whitespace and punctuation
      means answered by none. */
  lemma SeekIff(lines: seq<string>, pattern: seq<string>, start: nat, eof: bool, mode: UpdateMode)
    requires start <= |lines|
    ensures var r := Seek(lines, pattern, start, eof, mode);
      && (r.None? <==> Nowhere(lines, pattern, start, eof, mode, Normalised))
      && (forall i: nat :: r == Some(i) <==> Found(lines, pattern, start, eof, mode, i))
  {
    hide *;
    SeekFinds(lines, pattern, start, eof, mode);
    var r := Seek(lines, pattern, start, eof, mode);
    forall i: nat | Found(lines, pattern, start, eof, mode, i)
      ensures r == Some(i)
    {
      if r.None? {
        FoundIsSomewhere(lines, pattern, start, eof, mode, i);
      } else {
        FoundOnce(lines, pattern, start, eof, mode, i, r.value);
      }
    }
    if r.Some? {
      FoundIsSomewhere(lines, pattern, start, eof, mode, r.value);
    }
  }

  lemma FoundIsSomewhere(lines: seq<string>, pattern: seq<string>, start: nat, eof: bool, mode: UpdateMode, i: nat)
    requires Found(lines, pattern, start, eof, mode, i)
    ensures !Nowhere(lines, pattern, start, eof, mode, Normalised)
  {
    hide MatchesAt, InRange;
    var level :| FoundAt(lines, pattern, start, eof, mode, i, level);
    LevelsNest(level, Normalised, lines, pattern, i);
  }

  lemma FoundOnce(lines: seq<string>, pattern: seq<string>, start: nat, eof: bool, mode: UpdateMode, i: nat, j: nat)
    requires Found(lines, pattern, start, eof, mode, i) && Found(lines, pattern, start, eof, mode, j)
    ensures i == j
  {
    hide MatchesAt, InRange;
    var a :| FoundAt(lines, pattern, start, eof, mode, i, a);
    var b :| FoundAt(lines, pattern, start, eof, mode, j, b);
    assert !(Rank(a) < Rank(b)) && !(Rank(b) < Rank(a));
    assert a == b;
  }

  lemma RangeStarts(lines: seq<string>, pattern: seq<string>, start: nat, eof: bool, mode: UpdateMode, i: nat)
    requires pattern != [] && |pattern| <= |lines|
    requires i + |pattern| <= |lines|
    ensures InRange(lines, pattern, start, eof, mode, i) <==> SearchStart(lines, pattern, start, eof, mode) <= i
  {
  }

  lemma EmptyIsFound(lines: seq<string>, start: nat, eof: bool, mode: UpdateMode)
    requires start <= |lines|
    ensures Seek(lines, [], start, eof, mode) == Some(start) && Found(lines, [], start, eof, mode, start)
  {
    assert FoundAt(lines, [], start, eof, mode, start, Exact);
  }

  lemma SeekFinds(lines: seq<string>, pattern: seq<string>, start: nat, eof: bool, mode: UpdateMode)
    requires start <= |lines|
    ensures var r := Seek(lines, pattern, start, eof, mode);
      if r.Some? then Found(lines, pattern, start, eof, mode, r.value)
      else Nowhere(lines, pattern, start, eof, mode, Normalised)
  {
    hide FirstLevelMatch, Key, SearchStart, InRange, FoundAt;
    if pattern == [] {
      EmptyIsFound(lines, start, eof, mode);
    } else if |pattern| <= |lines| {
      SeekContract(lines, pattern, start, eof, mode);
      MatchesFit(lines, pattern);
      hide Seek, MatchesAt;
      var from, r := SearchStart(lines, pattern, start, eof, mode), Seek(lines, pattern, start, eof, mode);
      if r.Some? {
        var level :| StrictestFirst(lines, pattern, from, r.value, level);
        StrictestIsFound(lines, pattern, start, eof, mode, r.value, level);
      } else {
        forall j: nat | InRange(lines, pattern, start, eof, mode, j)
          ensures !MatchesAt(Normalised, lines, pattern, j)
        {
          if j + |pattern| <= |lines| {
            RangeStarts(lines, pattern, start, eof, mode, j);
          }
        }
      }
    }
  }

  lemma StrictestIsFound(lines: seq<string>, pattern: seq<string>, start: nat, eof: bool, mode: UpdateMode, i: nat,
                         level: Level)
    requires pattern != [] && |pattern| <= |lines|
    requires StrictestFirst(lines, pattern, SearchStart(lines, pattern, start, eof, mode), i, level)
    ensures FoundAt(lines, pattern, start, eof, mode, i, level)
  {
    MatchesFit(lines, pattern);
    hide MatchesAt, SearchStart, InRange;
    RangeStarts(lines, pattern, start, eof, mode, i);
    forall l: Level, j: nat | InRange(lines, pattern, start, eof, mode, j) && MatchesAt(l, lines, pattern, j)
      ensures SearchStart(lines, pattern, start, eof, mode) <= j
    {
      RangeStarts(lines, pattern, start, eof, mode, j);
    }
  }

  // ---------------------------------------------------------------- one chunk

  /** The search for the block starts at `at`: behind the context line, where the chunk has one. */
  ghost predicate StartsAt(lines: seq<string>, chunk: UpdateFileChunk, mode: UpdateMode, from: nat, at: nat) {
    match chunk.changeContext
    case None => at == from
    case Some(line) => at > 0 && Found(lines, [line], from, false, mode, at - 1)
  }

  /** The block is the old lines where they are found, else the old lines without a blank last one, the
      new lines then losing theirs too; no old lines are added at the end. */
  ghost predicate IsBlock(lines: seq<string>, chunk: UpdateFileChunk, mode: UpdateMode, at: nat, p: Placement) {
    var oldLines, eof := chunk.oldLines, chunk.isEndOfFile;
    if oldLines == [] then
      p == AtEnd(if mode == NormalizeToLf && lines != [] && lines[|lines| - 1] == "" then |lines| - 1 else |lines|,
                 chunk.newLines)
    else
      && p.Located? && p.context == chunk.contextLineIndices
      && Found(lines, p.pattern, at, eof, mode, p.start)
      && if !Nowhere(lines, oldLines, at, eof, mode, Normalised) then
           p.pattern == oldLines && p.replacement == chunk.newLines
         else && oldLines == p.pattern + [""]
              && chunk.newLines == p.replacement + if EndsBlank(chunk.newLines) then [""] else []
  }

  /** From `from` on, the chunk is placed at `p`, and the next search starts at `next`: behind the
      block, or where it would have been searched for. */
  ghost predicate PlacedFrom(lines: seq<string>, chunk: UpdateFileChunk, mode: UpdateMode, from: nat, p: Placement,
                             next: nat)
  {
    exists at: nat :: StartsAt(lines, chunk, mode, from, at) && IsBlock(lines, chunk, mode, at, p)
                 && next == if p.Located? then p.start + |p.pattern| else at
  }

  ghost predicate BlockMissing(lines: seq<string>, chunk: UpdateFileChunk, mode: UpdateMode, at: nat) {
    var oldLines, eof := chunk.oldLines, chunk.isEndOfFile;
    && oldLines != [] && Nowhere(lines, oldLines, at, eof, mode, Normalised)
    && (EndsBlank(oldLines) ==> Nowhere(lines, WithoutLast(oldLines), at, eof, mode, Normalised))
  }

  /** The context line stands nowhere behind `from`, or the block nowhere behind its context. */
  ghost predicate FailsFrom(lines: seq<string>, chunk: UpdateFileChunk, mode: UpdateMode, from: nat, e: UpdateError) {
    || (chunk.changeContext.Some? && e == ContextNotFound(chunk.changeContext.value)
        && Nowhere(lines, [chunk.changeContext.value], from, false, mode, Normalised))
    || (e == LinesNotFound(chunk.oldLines)
        && exists at: nat :: StartsAt(lines, chunk, mode, from, at) && BlockMissing(lines, chunk, mode, at))
  }

  lemma ContextIff(lines: seq<string>, chunk: UpdateFileChunk, mode: UpdateMode, from: nat)
    requires from <= |lines|
    ensures var r := AfterContext(lines, chunk, from, mode);
      && (forall at: nat :: StartsAt(lines, chunk, mode, from, at) <==> r == Ok(at))
      && (forall e :: r == Err(e) <==>
            && chunk.changeContext.Some? && e == ContextNotFound(chunk.changeContext.value)
            && Nowhere(lines, [chunk.changeContext.value], from, false, mode, Normalised))
      && (r.Ok? ==> r.value <= |lines|)
  {
    hide Seek, Found, Nowhere;
    AfterContextInBounds(lines, chunk, from, mode);
    if chunk.changeContext.Some? {
      SeekIff(lines, [chunk.changeContext.value], from, false, mode);
      var r := Seek(lines, [chunk.changeContext.value], from, false, mode);
      forall at: nat
        ensures StartsAt(lines, chunk, mode, from, at) <==> r.Some? && at == r.value + 1
      {
        if r.Some? {
          assert Found(lines, [chunk.changeContext.value], from, false, mode, r.value);
        }
      }
    }
  }

  lemma BlockIff(lines: seq<string>, chunk: UpdateFileChunk, mode: UpdateMode, at: nat)
    requires at <= |lines|
    ensures var r := PlaceChunk(lines, chunk, at, mode);
      && (forall p :: IsBlock(lines, chunk, mode, at, p) <==> r == Ok(p))
      && (forall e :: r == Err(e) <==> e == LinesNotFound(chunk.oldLines) && BlockMissing(lines, chunk, mode, at))
  {
    hide Seek, Found, Nowhere;
    WithoutLastBlank(chunk.oldLines);
    WithoutLastBlank(chunk.newLines);
    SeekIff(lines, chunk.oldLines, at, chunk.isEndOfFile, mode);
    if chunk.oldLines != [] {
      SeekIff(lines, WithoutLast(chunk.oldLines), at, chunk.isEndOfFile, mode);
      var r := PlaceChunk(lines, chunk, at, mode);
      forall p | IsBlock(lines, chunk, mode, at, p)
        ensures r == Ok(p)
      {
        IsPlaced(lines, chunk, mode, at, p);
      }
    }
  }

  lemma IsPlaced(lines: seq<string>, chunk: UpdateFileChunk, mode: UpdateMode, at: nat, p: Placement)
    requires at <= |lines| && chunk.oldLines != [] && IsBlock(lines, chunk, mode, at, p)
    ensures PlaceChunk(lines, chunk, at, mode) == Ok(p)
  {
    hide Seek, Found, Nowhere;
    SeekIff(lines, chunk.oldLines, at, chunk.isEndOfFile, mode);
    SeekIff(lines, p.pattern, at, chunk.isEndOfFile, mode);
    if Nowhere(lines, chunk.oldLines, at, chunk.isEndOfFile, mode, Normalised) {
      DropLast(p.pattern, chunk.oldLines);
      assert p.replacement + [] == p.replacement;
      if EndsBlank(chunk.newLines) {
        DropLast(p.replacement, chunk.newLines);
      }
    }
  }

  lemma DropLast(front: seq<string>, lines: seq<string>)
    requires lines == front + [""]
    ensures EndsBlank(lines) && WithoutLast(lines) == front
  {
  }

  // ---------------------------------------------------------------- all chunks

  lemma StepIff(lines: seq<string>, chunk: UpdateFileChunk, mode: UpdateMode, from: nat, p: Placement, next: nat)
    requires from <= |lines|
    ensures PlacedFrom(lines, chunk, mode, from, p, next) <==>
      var at := AfterContext(lines, chunk, from, mode);
      at.Ok? && PlaceChunk(lines, chunk, at.value, mode) == Ok(p) && next == p.Next(at.value)
  {
    hide AfterContext, PlaceChunk, StartsAt, IsBlock;
    ContextIff(lines, chunk, mode, from);
    var at := AfterContext(lines, chunk, from, mode);
    if at.Ok? {
      assert StartsAt(lines, chunk, mode, from, at.value);
      BlockIff(lines, chunk, mode, at.value);
    }
  }

  lemma FailIff(lines: seq<string>, chunk: UpdateFileChunk, mode: UpdateMode, from: nat, e: UpdateError)
    requires from <= |lines|
    ensures FailsFrom(lines, chunk, mode, from, e) <==>
      var at := AfterContext(lines, chunk, from, mode);
      at == Err(e) || (at.Ok? && PlaceChunk(lines, chunk, at.value, mode) == Err(e))
  {
    hide AfterContext, PlaceChunk, StartsAt, BlockMissing, Nowhere;
    ContextIff(lines, chunk, mode, from);
    var at := AfterContext(lines, chunk, from, mode);
    if at.Ok? {
      assert StartsAt(lines, chunk, mode, from, at.value);
      BlockIff(lines, chunk, mode, at.value);
    }
  }

  lemma NextInBounds(lines: seq<string>, chunk: UpdateFileChunk, mode: UpdateMode, from: nat)
    requires from <= |lines|
    ensures var at := AfterContext(lines, chunk, from, mode);
      at.Ok? ==>
        var p := PlaceChunk(lines, chunk, at.value, mode);
        at.value <= |lines| && (p.Ok? ==> p.value.Next(at.value) <= |lines|)
  {
    AfterContextInBounds(lines, chunk, from, mode);
    hide AfterContext, PlaceChunk, Tame;
    var at := AfterContext(lines, chunk, from, mode);
    if at.Ok? {
      PlaceChunkInBounds(lines, chunk, at.value, mode);
    }
  }

  /** The first chunks are placed at `ps`, each searched for from where the one before it left off:
      `starts` are these indices, and where the next one would be searched for. */
  ghost predicate Searches(lines: seq<string>, chunks: seq<UpdateFileChunk>, mode: UpdateMode, from: nat,
                           ps: seq<Placement>, starts: seq<nat>)
  {
    && |ps| <= |chunks| && |starts| == |ps| + 1 && starts[0] == from
    && forall i :: 0 <= i < |ps| ==> PlacedFrom(lines, chunks[i], mode, starts[i], ps[i], starts[i + 1])
  }

  /** All chunks are found one after the other, or the first that is not gives the error. */
  ghost predicate Outcome(lines: seq<string>, chunks: seq<UpdateFileChunk>, mode: UpdateMode, from: nat,
                          r: Result<seq<Placement>, UpdateError>)
  {
    match r
    case Ok(ps) => |ps| == |chunks| && exists starts :: Searches(lines, chunks, mode, from, ps, starts)
    case Err(e) => exists ps, starts ::
      Searches(lines, chunks, mode, from, ps, starts) && |ps| < |chunks|
      && FailsFrom(lines, chunks[|ps|], mode, starts[|ps|], e)
  }

  lemma SearchesCons(lines: seq<string>, chunks: seq<UpdateFileChunk>, mode: UpdateMode, from: nat, p: Placement,
                     next: nat, ps: seq<Placement>, starts: seq<nat>)
    requires chunks != [] && PlacedFrom(lines, chunks[0], mode, from, p, next)
    requires Searches(lines, chunks[1..], mode, next, ps, starts)
    ensures Searches(lines, chunks, mode, from, [p] + ps, [from] + starts)
  {
    hide PlacedFrom;
    forall i | 0 <= i < |[p] + ps|
      ensures PlacedFrom(lines, chunks[i], mode, ([from] + starts)[i], ([p] + ps)[i], ([from] + starts)[i + 1])
    {
      if i > 0 {
        assert chunks[i] == chunks[1..][i - 1];
      }
    }
  }

  lemma SearchesTail(lines: seq<string>, chunks: seq<UpdateFileChunk>, mode: UpdateMode, from: nat, ps: seq<Placement>,
                     starts: seq<nat>)
    requires Searches(lines, chunks, mode, from, ps, starts) && ps != []
    ensures |starts| > 1 && PlacedFrom(lines, chunks[0], mode, from, ps[0], starts[1])
    ensures Searches(lines, chunks[1..], mode, starts[1], ps[1..], starts[1..])
  {
    hide PlacedFrom;
    forall i | 0 <= i < |ps[1..]|
      ensures PlacedFrom(lines, chunks[1..][i], mode, starts[1..][i], ps[1..][i], starts[1..][i + 1])
    {
      assert PlacedFrom(lines, chunks[i + 1], mode, starts[i + 1], ps[i + 1], starts[i + 2]);
    }
  }

  lemma {:induction false} PlaceHasOutcome(lines: seq<string>, chunks: seq<UpdateFileChunk>, mode: UpdateMode,
                                          from: nat)
    requires from <= |lines|
    ensures Outcome(lines, chunks, mode, from, Place(lines, chunks, from, mode))
    decreases |chunks|
  {
    hide AfterContext, PlaceChunk, PlacedFrom, FailsFrom;
    if chunks == [] {
      assert Searches(lines, chunks, mode, from, [], [from]);
    } else {
      var at := AfterContext(lines, chunks[0], from, mode);
      NextInBounds(lines, chunks[0], mode, from);
      if at.Err? {
        FailIff(lines, chunks[0], mode, from, at.error);
        assert Searches(lines, chunks, mode, from, [], [from]);
      } else if PlaceChunk(lines, chunks[0], at.value, mode).Err? {
        FailIff(lines, chunks[0], mode, from, PlaceChunk(lines, chunks[0], at.value, mode).error);
        assert Searches(lines, chunks, mode, from, [], [from]);
      } else {
        var p := PlaceChunk(lines, chunks[0], at.value, mode).value;
        var next := p.Next(at.value);
        StepIff(lines, chunks[0], mode, from, p, next);
        PlaceHasOutcome(lines, chunks[1..], mode, next);
        OutcomeCons(lines, chunks, mode, from, p, next, Place(lines, chunks[1..], next, mode));
      }
    }
  }

  lemma OutcomeCons(lines: seq<string>, chunks: seq<UpdateFileChunk>, mode: UpdateMode, from: nat, p: Placement,
                    next: nat, rest: Result<seq<Placement>, UpdateError>)
    requires chunks != [] && PlacedFrom(lines, chunks[0], mode, from, p, next)
    requires Outcome(lines, chunks[1..], mode, next, rest)
    ensures Outcome(lines, chunks, mode, from, if rest.Ok? then Ok([p] + rest.value) else rest)
  {
    hide PlacedFrom, FailsFrom;
    match rest {
      case Ok(ps) =>
        var starts :| Searches(lines, chunks[1..], mode, next, ps, starts);
        SearchesCons(lines, chunks, mode, from, p, next, ps, starts);
      case Err(e) =>
        var ps, starts :| Searches(lines, chunks[1..], mode, next, ps, starts) && |ps| < |chunks[1..]|
                          && |starts| == |ps| + 1 && FailsFrom(lines, chunks[1..][|ps|], mode, starts[|ps|], e);
        SearchesCons(lines, chunks, mode, from, p, next, ps, starts);
        assert ([from] + starts)[|[p] + ps|] == starts[|ps|] && chunks[|[p] + ps|] == chunks[1..][|ps|];
    }
  }

  lemma {:induction false} OutcomeIsPlace(lines: seq<string>, chunks: seq<UpdateFileChunk>, mode: UpdateMode, from: nat,
                                          r: Result<seq<Placement>, UpdateError>)
    requires from <= |lines| && Outcome(lines, chunks, mode, from, r)
    ensures Place(lines, chunks, from, mode) == r
    decreases |chunks|
  {
    hide AfterContext, PlaceChunk, PlacedFrom, FailsFrom, Searches;
    if r.Ok? {
      var starts :| Searches(lines, chunks, mode, from, r.value, starts);
      if chunks != [] {
        SearchesTail(lines, chunks, mode, from, r.value, starts);
        HeadIsPlaced(lines, chunks, mode, from, r.value[0], starts[1]);
        OutcomeIsPlace(lines, chunks[1..], mode, starts[1], Ok(r.value[1..]));
        assert r.value == [r.value[0]] + r.value[1..];
      }
    } else {
      var ps, starts := FailingSearch(lines, chunks, mode, from, r.error);
      if ps == [] {
        FirstOfSearches(lines, chunks, mode, from, starts);
        FailIff(lines, chunks[0], mode, from, r.error);
      } else {
        SearchesTail(lines, chunks, mode, from, ps, starts);
        HeadIsPlaced(lines, chunks, mode, from, ps[0], starts[1]);
        assert chunks[1..][|ps[1..]|] == chunks[|ps|] && starts[1..][|ps[1..]|] == starts[|ps|];
        FailingOutcome(lines, chunks[1..], mode, starts[1], ps[1..], starts[1..], r.error);
        OutcomeIsPlace(lines, chunks[1..], mode, starts[1], r);
      }
    }
  }

  lemma FirstOfSearches(lines: seq<string>, chunks: seq<UpdateFileChunk>, mode: UpdateMode, from: nat, starts: seq<nat>)
    requires Searches(lines, chunks, mode, from, [], starts)
    ensures starts == [from]
  {
  }

  lemma FailingSearch(lines: seq<string>, chunks: seq<UpdateFileChunk>, mode: UpdateMode, from: nat, e: UpdateError)
    returns (ps: seq<Placement>, starts: seq<nat>)
    requires Outcome(lines, chunks, mode, from, Err(e))
    ensures Searches(lines, chunks, mode, from, ps, starts) && |ps| < |chunks| && |starts| == |ps| + 1
    ensures FailsFrom(lines, chunks[|ps|], mode, starts[|ps|], e)
  {
    hide PlacedFrom, FailsFrom;
    var blocks, indices :| Searches(lines, chunks, mode, from, blocks, indices) && |blocks| < |chunks|
                           && FailsFrom(lines, chunks[|blocks|], mode, indices[|blocks|], e);
    ps, starts := blocks, indices;
  }

  lemma FailingOutcome(lines: seq<string>, chunks: seq<UpdateFileChunk>, mode: UpdateMode, from: nat,
                       ps: seq<Placement>, starts: seq<nat>, e: UpdateError)
    requires Searches(lines, chunks, mode, from, ps, starts) && |ps| < |chunks| && |starts| == |ps| + 1
    requires FailsFrom(lines, chunks[|ps|], mode, starts[|ps|], e)
    ensures Outcome(lines, chunks, mode, from, Err(e))
  {
    hide PlacedFrom, FailsFrom;
  }

  lemma HeadIsPlaced(lines: seq<string>, chunks: seq<UpdateFileChunk>, mode: UpdateMode, from: nat, p: Placement,
                     next: nat)
    requires from <= |lines| && chunks != [] && PlacedFrom(lines, chunks[0], mode, from, p, next)
    ensures next <= |lines|
    ensures var rest := Place(lines, chunks[1..], next, mode);
      Place(lines, chunks, from, mode) == if rest.Ok? then Ok([p] + rest.value) else rest
  {
    hide AfterContext, PlaceChunk, PlacedFrom;
    StepIff(lines, chunks[0], mode, from, p, next);
    NextInBounds(lines, chunks[0], mode, from);
  }

  /** Exactly these placements, or exactly this error: every chunk is searched for from where the one
      before it ended, behind its context line if it has one, first match of the strictest level. */
  lemma PlaceIff(lines: seq<string>, chunks: seq<UpdateFileChunk>, mode: UpdateMode,
                 r: Result<seq<Placement>, UpdateError>)
    ensures Place(lines, chunks, 0, mode) == r <==> Outcome(lines, chunks, mode, 0, r)
  {
    hide Place, Outcome;
    PlaceHasOutcome(lines, chunks, mode, 0);
    if Outcome(lines, chunks, mode, 0, r) {
      OutcomeIsPlace(lines, chunks, mode, 0, r);
    }
  }

  /** So for parsed chunks the computed edits are those of the blocks found in this way, and the error
      is that of the first chunk that is not found. */
  lemma EditsIff(lines: seq<string>, chunks: seq<UpdateFileChunk>, mode: UpdateMode,
                 r: Result<seq<Placement>, UpdateError>)
    requires ChunksOk(chunks) && Outcome(lines, chunks, mode, 0, r)
    ensures ComputedEdits(lines, chunks, mode)
            == if r.Ok? then Ok(StableSort(Flatten(r.value, mode))) else Err(r.error)
  {
    hide Place, Outcome, AllEdits, StableSort, Flatten, ChunksOk;
    PlaceIff(lines, chunks, mode, r);
    EditsAreFlattened(lines, chunks, 0, mode);
  }
}
