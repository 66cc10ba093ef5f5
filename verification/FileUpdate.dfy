/** Turning located chunks into edits, and applying them (file_update.rs). */
module FileUpdate {
  import opened Text
  import opened TextFile
  import opened LineSearch
  import opened Patch

  datatype UpdateError =
    | ContextNotFound(context: string)
    | LinesNotFound(lines: seq<string>)
    | Underflow  // an index subtraction or slice out of order: the code panics

  /** Where a chunk goes: past the last line, or over the block it was matched with. */
  datatype Placement =
    | AtEnd(index: nat, added: seq<string>)
    | Located(start: nat, pattern: seq<string>, replacement: seq<string>, context: seq<(nat, nat)>)
  {
    /** Where the search for the next chunk continues. */
    function Next(from: nat): nat {
      if AtEnd? then from else start + |pattern|
    }
  }

  function WithoutLast(lines: seq<string>): seq<string>
    requires lines != []
  {
    lines[..|lines| - 1]
  }

  predicate EndsBlank(lines: seq<string>) {
    lines != [] && lines[|lines| - 1] == ""
  }

  function InsertionIndex(lines: seq<string>, mode: UpdateMode): nat {
    if mode == NormalizeToLf && EndsBlank(lines) then |lines| - 1 else |lines|
  }

  function AfterContext(lines: seq<string>, chunk: UpdateFileChunk, from: nat, mode: UpdateMode)
    : Result<nat, UpdateError>
  {
    match chunk.changeContext
    case None => Ok(from)
    case Some(line) =>
      var found := Seek(lines, [line], from, false, mode);
      if found.Some? then Ok(found.value + 1) else Err(ContextNotFound(line))
  }

  /** Finds the old lines; a trailing blank one may stand for the newline at the end of the file. */
  function PlaceChunk(lines: seq<string>, chunk: UpdateFileChunk, from: nat, mode: UpdateMode)
    : Result<Placement, UpdateError>
  {
    var oldLines, newLines := chunk.oldLines, chunk.newLines;
    if oldLines == [] then Ok(AtEnd(InsertionIndex(lines, mode), newLines))
    else
      var found := Seek(lines, oldLines, from, chunk.isEndOfFile, mode);
      if found.Some? then Ok(Located(found.value, oldLines, newLines, chunk.contextLineIndices))
      else if !EndsBlank(oldLines) then Err(LinesNotFound(oldLines))
      else
        var retried := Seek(lines, WithoutLast(oldLines), from, chunk.isEndOfFile, mode);
        if retried.None? then Err(LinesNotFound(oldLines))
        else
          var replacement := if EndsBlank(newLines) then WithoutLast(newLines) else newLines;
          Ok(Located(retried.value, WithoutLast(oldLines), replacement, chunk.contextLineIndices))
  }

  /** A chunk is located exactly where its old lines occur; a blank last one is given up, on both
      sides, only when the whole does not occur; and the block found matches the pattern. */
  lemma PlaceChunkContract(lines: seq<string>, chunk: UpdateFileChunk, from: nat, mode: UpdateMode)
    requires chunk.oldLines != []
    ensures var whole := Occurs(lines, chunk.oldLines, from, chunk.isEndOfFile, mode);
      var shortened := EndsBlank(chunk.oldLines)
        && Occurs(lines, WithoutLast(chunk.oldLines), from, chunk.isEndOfFile, mode);
      var r := PlaceChunk(lines, chunk, from, mode);
      && (r.Ok? <==> whole || shortened) && (r.Err? ==> r.error == LinesNotFound(chunk.oldLines))
      && (r.Ok? ==>
           var p := r.value;
           && p.Located? && p.context == chunk.contextLineIndices
           && (if whole then p.pattern == chunk.oldLines && p.replacement == chunk.newLines
               else p.pattern + [""] == chunk.oldLines
                    && chunk.newLines == p.replacement + if EndsBlank(chunk.newLines) then [""] else [])
           && (p.pattern != [] ==> MatchesAt(Normalised, lines, p.pattern, p.start)))
  {
    hide Seek, Occurs, MatchesAt, EndsBlank, WithoutLast;
    SeekIffOccurs(lines, chunk.oldLines, from, chunk.isEndOfFile, mode);
    SeekIffOccurs(lines, WithoutLast(chunk.oldLines), from, chunk.isEndOfFile, mode);
    WithoutLastBlank(chunk.oldLines);
    WithoutLastBlank(chunk.newLines);
  }

  lemma WithoutLastBlank(lines: seq<string>)
    ensures EndsBlank(lines) ==> lines != [] && lines == WithoutLast(lines) + [""]
    ensures lines == lines + []
  {
  }

  /** One edit for every stretch between context lines that the chunk changes. */
  function GapEdits(start: nat, pattern: seq<string>, replacement: seq<string>,
                    context: seq<(nat, nat)>, oldStart: nat, newStart: nat): Result<seq<Replacement>, UpdateError>
    requires oldStart <= |pattern| && newStart <= |replacement|
    decreases |context|
  {
    if context == [] || context[0].0 >= |pattern| || context[0].1 >= |replacement| then
      if oldStart == |pattern| && newStart == |replacement| then Ok([])
      else Ok([Edit(start + oldStart, |pattern| - oldStart, replacement[newStart..])])
    else
      var (oldIndex, newIndex) := context[0];
      if oldIndex < oldStart || newIndex < newStart then Err(Underflow)
      else
        var rest :- GapEdits(start, pattern, replacement, context[1..], oldIndex + 1, newIndex + 1);
        Ok(GapEdit(start, replacement, oldStart, newStart, context[0]) + rest)
  }

  function GapEdit(start: nat, replacement: seq<string>, oldStart: nat, newStart: nat, context: (nat, nat))
    : seq<Replacement>
    requires oldStart <= context.0 && newStart <= context.1 < |replacement|
  {
    if oldStart == context.0 && newStart == context.1 then []
    else [Edit(start + oldStart, context.0 - oldStart, replacement[newStart..context.1])]
  }

  function EditsOf(p: Placement, mode: UpdateMode): Result<seq<Replacement>, UpdateError> {
    match p
    case AtEnd(index, added) => Ok([Edit(index, 0, added)])
    case Located(start, pattern, replacement, context) =>
      if mode == NormalizeToLf then Ok([Edit(start, |pattern|, replacement)])
      else GapEdits(start, pattern, replacement, context, 0, 0)
  }

  /** The edits of all chunks, each searched for where the one before it ended. */
  function AllEdits(lines: seq<string>, chunks: seq<UpdateFileChunk>, from: nat, mode: UpdateMode)
    : Result<seq<Replacement>, UpdateError>
    decreases |chunks|
  {
    if chunks == [] then Ok([])
    else
      var index :- AfterContext(lines, chunks[0], from, mode);
      var placement :- PlaceChunk(lines, chunks[0], index, mode);
      var edits :- EditsOf(placement, mode);
      var rest :- AllEdits(lines, chunks[1..], placement.Next(index), mode);
      Ok(edits + rest)
  }

  // ---------------------------------------------------------------- the stable sort

  function InsertByStart<T>(e: Edit<T>, sorted: seq<Edit<T>>): seq<Edit<T>> {
    if sorted == [] || e.start <= sorted[0].start then [e] + sorted
    else [sorted[0]] + InsertByStart(e, sorted[1..])
  }

  /** The order `sort_by_key` gives: by start, equal starts in their original order. */
  function StableSort<T>(edits: seq<Edit<T>>): seq<Edit<T>> {
    if edits == [] then [] else InsertByStart(edits[0], StableSort(edits[1..]))
  }

  predicate SortedByStart<T>(edits: seq<Edit<T>>) {
    forall i, j :: 0 <= i < j < |edits| ==> edits[i].start <= edits[j].start
  }

  function WithStart<T>(edits: seq<Edit<T>>, start: nat): seq<Edit<T>> {
    if edits == [] then []
    else (if edits[0].start == start then [edits[0]] else []) + WithStart(edits[1..], start)
  }

  lemma {:induction false} InsertPermutes<T>(e: Edit<T>, sorted: seq<Edit<T>>)
    ensures multiset(InsertByStart(e, sorted)) == multiset(sorted) + multiset{e}
  {
    if sorted != [] {
      assert multiset(sorted) == multiset{sorted[0]} + multiset(sorted[1..]) by {
        assert sorted == [sorted[0]] + sorted[1..];
      }
      InsertPermutes(e, sorted[1..]);
    }
  }

  lemma {:induction false} InsertAddsOne<T>(e: Edit<T>, sorted: seq<Edit<T>>)
    ensures forall x :: x in InsertByStart(e, sorted) ==> x == e || x in sorted
  {
    if sorted != [] && e.start > sorted[0].start {
      InsertAddsOne(e, sorted[1..]);
    }
  }

  lemma {:induction false} InsertSorts<T>(e: Edit<T>, sorted: seq<Edit<T>>)
    requires SortedByStart(sorted)
    ensures SortedByStart(InsertByStart(e, sorted))
  {
    if sorted != [] && e.start > sorted[0].start {
      InsertSorts(e, sorted[1..]);
      var rest := InsertByStart(e, sorted[1..]);
      InsertAddsOne(e, sorted[1..]);
      assert InsertByStart(e, sorted) == [sorted[0]] + rest;
      hide InsertByStart;
      forall i | 0 <= i < |rest|
        ensures sorted[0].start <= rest[i].start
      {
        assert rest[i] in rest;
      }
    }
  }

  lemma {:induction false} InsertIsStable<T>(e: Edit<T>, sorted: seq<Edit<T>>, start: nat)
    ensures WithStart(InsertByStart(e, sorted), start) == WithStart([e] + sorted, start)
  {
    assert ([e] + sorted)[1..] == sorted;
    if sorted != [] && e.start > sorted[0].start {
      InsertIsStable(e, sorted[1..], start);
      assert ([e] + sorted[1..])[1..] == sorted[1..];
      assert InsertByStart(e, sorted)[1..] == InsertByStart(e, sorted[1..]);
    }
  }

  lemma {:induction false} SortIsStable<T>(edits: seq<Edit<T>>, start: nat)
    ensures WithStart(StableSort(edits), start) == WithStart(edits, start)
  {
    if edits != [] {
      var rest := StableSort(edits[1..]);
      SortIsStable(edits[1..], start);
      InsertIsStable(edits[0], rest, start);
      assert ([edits[0]] + rest)[1..] == rest;
    }
  }

  lemma {:induction false} SortSorts<T>(edits: seq<Edit<T>>)
    ensures SortedByStart(StableSort(edits)) && multiset(StableSort(edits)) == multiset(edits)
  {
    if edits != [] {
      SortSorts(edits[1..]);
      InsertSorts(edits[0], StableSort(edits[1..]));
      InsertPermutes(edits[0], StableSort(edits[1..]));
      assert edits == [edits[0]] + edits[1..];
    }
  }

  /** The sort orders by start, loses nothing, and keeps edits of equal start in order. */
  lemma StableSortContract<T>(edits: seq<Edit<T>>)
    ensures var r := StableSort(edits);
      && SortedByStart(r) && multiset(r) == multiset(edits)
      && forall start :: WithStart(r, start) == WithStart(edits, start)
  {
    SortSorts(edits);
    forall start
      ensures WithStart(StableSort(edits), start) == WithStart(edits, start)
    {
      SortIsStable(edits, start);
    }
  }

  // ---------------------------------------------------------------- computing the edits

  function ComputedEdits(lines: seq<string>, chunks: seq<UpdateFileChunk>, mode: UpdateMode)
    : Result<seq<Replacement>, UpdateError>
  {
    var edits :- AllEdits(lines, chunks, 0, mode);
    Ok(StableSort(edits))
  }

  function After(done: seq<Replacement>, r: Result<seq<Replacement>, UpdateError>)
    : Result<seq<Replacement>, UpdateError>
  {
    if r.Ok? then Ok(done + r.value) else r
  }

  lemma AfterUnits()
    ensures forall r :: After([], r) == r
    ensures forall done :: After(done, Ok([])) == Ok(done)
  {
    assert forall es: seq<Replacement> :: [] + es == es && es + [] == es;
  }

  lemma NoChunks(lines: seq<string>, mode: UpdateMode)
    ensures forall from :: AllEdits(lines, [], from, mode) == Ok([])
  {
  }

  lemma AllEditsStep(lines: seq<string>, chunks: seq<UpdateFileChunk>, k: nat, from: nat, mode: UpdateMode,
                     done: seq<Replacement>)
    requires k < |chunks|
    ensures var r := After(done, AllEdits(lines, chunks[k..], from, mode));
      match AfterContext(lines, chunks[k], from, mode)
      case Err(e) => r == Err(e)
      case Ok(index) =>
        match PlaceChunk(lines, chunks[k], index, mode)
        case Err(e) => r == Err(e)
        case Ok(p) =>
          match EditsOf(p, mode)
          case Err(e) => r == Err(e)
          case Ok(edits) => r == After(done + edits, AllEdits(lines, chunks[k + 1..], p.Next(index), mode))
  {
    hide AfterContext, PlaceChunk, EditsOf;
    assert chunks[k..][0] == chunks[k] && chunks[k..][1..] == chunks[k + 1..];
    assert forall a: seq<Replacement>, b: seq<Replacement> :: done + (a + b) == done + a + b;
  }

  method ComputeReplacements(lines: seq<string>, chunks: seq<UpdateFileChunk>, mode: UpdateMode)
    returns (r: Result<seq<Replacement>, UpdateError>)
    ensures r == ComputedEdits(lines, chunks, mode)
  {
    hide AllEdits, PlaceChunk, EditsOf, Seek, After;
    AfterUnits();
    NoChunks(lines, mode);
    var replacements: seq<Replacement> := [];
    var lineIndex: nat := 0;
    assert chunks[0..] == chunks && chunks[|chunks|..] == [];
    for k := 0 to |chunks|
      invariant AllEdits(lines, chunks, 0, mode) == After(replacements, AllEdits(lines, chunks[k..], lineIndex, mode))
    {
      var chunk := chunks[k];
      AllEditsStep(lines, chunks, k, lineIndex, mode, replacements);
      if chunk.changeContext.Some? {
        var found := SeekSequence(lines, [chunk.changeContext.value], lineIndex, false, mode);
        if found.None? {
          return Err(ContextNotFound(chunk.changeContext.value));
        }
        lineIndex := found.value + 1;
      }
      var placed := LocateChunk(lines, chunk, lineIndex, mode);
      if placed.Err? {
        return Err(placed.error);
      }
      var edits := PlacementEdits(placed.value, mode);
      if edits.Err? {
        return Err(edits.error);
      }
      replacements := replacements + edits.value;
      lineIndex := placed.value.Next(lineIndex);
    }
    return Ok(StableSort(replacements));
  }

  /** The search for one chunk's old lines, with its retry. */
  method LocateChunk(lines: seq<string>, chunk: UpdateFileChunk, lineIndex: nat, mode: UpdateMode)
    returns (r: Result<Placement, UpdateError>)
    ensures r == PlaceChunk(lines, chunk, lineIndex, mode)
  {
    if chunk.oldLines == [] {
      return Ok(AtEnd(InsertionIndex(lines, mode), chunk.newLines));
    }
    var pattern, replacement := chunk.oldLines, chunk.newLines;
    var found := SeekSequence(lines, pattern, lineIndex, chunk.isEndOfFile, mode);
    if found.None? && EndsBlank(pattern) {
      pattern := WithoutLast(pattern);
      if EndsBlank(replacement) {
        replacement := WithoutLast(replacement);
      }
      found := SeekSequence(lines, pattern, lineIndex, chunk.isEndOfFile, mode);
    }
    if found.None? {
      return Err(LinesNotFound(chunk.oldLines));
    }
    return Ok(Located(found.value, pattern, replacement, chunk.contextLineIndices));
  }

  lemma GapEditsEnd(p: Placement, k: nat, oldStart: nat, newStart: nat)
    requires p.Located? && k <= |p.context| && oldStart <= |p.pattern| && newStart <= |p.replacement|
    requires k < |p.context| ==> p.context[k].0 >= |p.pattern| || p.context[k].1 >= |p.replacement|
    ensures GapEdits(p.start, p.pattern, p.replacement, p.context[k..], oldStart, newStart)
            == if oldStart == |p.pattern| && newStart == |p.replacement| then Ok([])
               else Ok([Edit(p.start + oldStart, |p.pattern| - oldStart, p.replacement[newStart..])])
  {
  }

  /** Each edit removes lines or adds some. */
  predicate NoneIdle(edits: seq<Replacement>) {
    forall i :: 0 <= i < |edits| ==> edits[i].oldLen > 0 || edits[i].newLines != []
  }

  /** No edit of a located chunk leaves the file as it is. */
  lemma {:induction false} NoIdleEdits(start: nat, pattern: seq<string>, replacement: seq<string>,
                                       context: seq<(nat, nat)>, oldStart: nat, newStart: nat)
    requires oldStart <= |pattern| && newStart <= |replacement|
    ensures var r := GapEdits(start, pattern, replacement, context, oldStart, newStart);
      r.Ok? ==> NoneIdle(r.value)
    decreases |context|
  {
    hide NoneIdle, GapEdit;
    if context != [] && context[0].0 < |pattern| && context[0].1 < |replacement| {
      if oldStart <= context[0].0 && newStart <= context[0].1 {
        NoIdleEdits(start, pattern, replacement, context[1..], context[0].0 + 1, context[0].1 + 1);
        var rest := GapEdits(start, pattern, replacement, context[1..], context[0].0 + 1, context[0].1 + 1);
        GapIsNotIdle(start, replacement, oldStart, newStart, context[0], if rest.Ok? then rest.value else []);
      }
    } else {
      TailIsNotIdle(start, pattern, replacement, context, oldStart, newStart);
    }
  }

  lemma GapIsNotIdle(start: nat, replacement: seq<string>, oldStart: nat, newStart: nat, context: (nat, nat),
                     rest: seq<Replacement>)
    requires oldStart <= context.0 && newStart <= context.1 < |replacement|
    ensures NoneIdle(rest) ==> NoneIdle(GapEdit(start, replacement, oldStart, newStart, context) + rest)
  {
  }

  lemma TailIsNotIdle(start: nat, pattern: seq<string>, replacement: seq<string>, context: seq<(nat, nat)>,
                      oldStart: nat, newStart: nat)
    requires oldStart <= |pattern| && newStart <= |replacement|
    requires context == [] || context[0].0 >= |pattern| || context[0].1 >= |replacement|
    ensures var r := GapEdits(start, pattern, replacement, context, oldStart, newStart);
      r.Ok? && NoneIdle(r.value)
  {
  }

  lemma GapEditsStep(p: Placement, k: nat, oldStart: nat, newStart: nat, done: seq<Replacement>)
    requires p.Located? && k < |p.context| && oldStart <= |p.pattern| && newStart <= |p.replacement|
    requires p.context[k].0 < |p.pattern| && p.context[k].1 < |p.replacement|
    ensures var r := After(done, GapEdits(p.start, p.pattern, p.replacement, p.context[k..], oldStart, newStart));
      if p.context[k].0 < oldStart || p.context[k].1 < newStart then r == Err(Underflow)
      else r == After(done + GapEdit(p.start, p.replacement, oldStart, newStart, p.context[k]),
                      GapEdits(p.start, p.pattern, p.replacement, p.context[k + 1..], p.context[k].0 + 1,
                               p.context[k].1 + 1))
  {
    assert p.context[k..][0] == p.context[k] && p.context[k..][1..] == p.context[k + 1..];
    assert forall a: seq<Replacement>, b: seq<Replacement> :: done + (a + b) == done + a + b;
  }

  /** The walk's state: what is collected, and the gaps still ahead, make up the whole. */
  ghost predicate Walked(p: Placement, k: nat, oldStart: nat, newStart: nat, edits: seq<Replacement>)
    requires p.Located? && k <= |p.context| && oldStart <= |p.pattern| && newStart <= |p.replacement|
  {
    EditsOf(p, PreserveLineEndings)
    == After(edits, GapEdits(p.start, p.pattern, p.replacement, p.context[k..], oldStart, newStart))
  }

  lemma WalkStarts(p: Placement)
    requires p.Located?
    ensures Walked(p, 0, 0, 0, [])
  {
    hide GapEdits, After;
    AfterUnits();
    assert p.context[0..] == p.context;
  }

  lemma WalkStep(p: Placement, k: nat, oldStart: nat, newStart: nat, edits: seq<Replacement>)
    requires p.Located? && k < |p.context| && oldStart <= |p.pattern| && newStart <= |p.replacement|
    requires p.context[k].0 < |p.pattern| && p.context[k].1 < |p.replacement|
    requires Walked(p, k, oldStart, newStart, edits)
    ensures var (oldIndex, newIndex) := p.context[k];
      if oldIndex < oldStart || newIndex < newStart then EditsOf(p, PreserveLineEndings) == Err(Underflow)
      else Walked(p, k + 1, oldIndex + 1, newIndex + 1,
                  edits + GapEdit(p.start, p.replacement, oldStart, newStart, p.context[k]))
  {
    hide GapEdits, After, EditsOf, GapEdit;
    GapEditsStep(p, k, oldStart, newStart, edits);
  }

  lemma WalkEnds(p: Placement, k: nat, oldStart: nat, newStart: nat, edits: seq<Replacement>)
    requires p.Located? && k <= |p.context| && oldStart <= |p.pattern| && newStart <= |p.replacement|
    requires k < |p.context| ==> p.context[k].0 >= |p.pattern| || p.context[k].1 >= |p.replacement|
    requires Walked(p, k, oldStart, newStart, edits)
    ensures EditsOf(p, PreserveLineEndings)
            == Ok(if oldStart == |p.pattern| && newStart == |p.replacement| then edits
                  else edits + [Edit(p.start + oldStart, |p.pattern| - oldStart, p.replacement[newStart..])])
  {
    hide GapEdits, EditsOf;
    GapEditsEnd(p, k, oldStart, newStart);
    assert edits + [] == edits;
  }

  /** The walk over a located chunk's context pairs. */
  method PlacementEdits(p: Placement, mode: UpdateMode) returns (r: Result<seq<Replacement>, UpdateError>)
    ensures r == EditsOf(p, mode)
  {
    if p.AtEnd? {
      return Ok([Edit(p.index, 0, p.added)]);
    }
    if mode == NormalizeToLf {
      return Ok([Edit(p.start, |p.pattern|, p.replacement)]);
    }
    hide EditsOf, Walked;
    var edits: seq<Replacement> := [];
    var oldStart: nat, newStart: nat, k: nat := 0, 0, 0;
    WalkStarts(p);
    while k < |p.context| && p.context[k].0 < |p.pattern| && p.context[k].1 < |p.replacement|
      invariant k <= |p.context| && oldStart <= |p.pattern| && newStart <= |p.replacement|
      invariant Walked(p, k, oldStart, newStart, edits)
    {
      WalkStep(p, k, oldStart, newStart, edits);
      assert edits + [] == edits;
      var (oldIndex, newIndex) := p.context[k];
      if oldIndex < oldStart || newIndex < newStart {
        return Err(Underflow);
      }
      if oldStart != oldIndex || newStart != newIndex {
        edits := edits + [Edit(p.start + oldStart, oldIndex - oldStart, p.replacement[newStart..newIndex])];
      }
      oldStart := oldIndex + 1;
      newStart := newIndex + 1;
      k := k + 1;
    }
    WalkEnds(p, k, oldStart, newStart, edits);
    if oldStart != |p.pattern| || newStart != |p.replacement| {
      edits := edits + [Edit(p.start + oldStart, |p.pattern| - oldStart, p.replacement[newStart..])];
    }
    return Ok(edits);
  }
}
