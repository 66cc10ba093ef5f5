/** What updates yield end to end: blocks replaced by their targets, and edit scripts performed. */
module UpdateResults {
  import opened Text
  import opened TextFile
  import opened LineSearch
  import opened Patch
  import opened FileUpdate
  import opened EditSafety
  import ApplyUpdate
  import opened UpdateMeaning

  // ---------------------------------------------------------------- whole blocks

  ghost predicate AllLocated(ps: seq<Placement>, n: nat) {
    forall i :: 0 <= i < |ps| ==> InFile(ps[i], n)
  }

  /** Each block with the whole of its target. */
  function Blocks(source: seq<SourceLine>, ps: seq<Placement>, ending: LineEnding): seq<Edit<SourceLine>>
    requires AllLocated(ps, |source|)
  {
    if ps == [] then []
    else [Edit(ps[0].start, |ps[0].pattern|, Target(source, ps[0], ending))] + Blocks(source, ps[1..], ending)
  }

  /** The definitions of bodies, tails and blocks, one placement unfolded. */
  lemma Unfold(source: seq<SourceLine>, ps: seq<Placement>, ending: LineEnding)
    requires AllLocated(ps, |source|)
    ensures ps == [] ==>
      Bodies(source, ps, ending) == [] && Tails(source, ps, ending) == [] && Blocks(source, ps, ending) == []
    ensures ps != [] ==>
      var p, target, cut := ps[0], Target(source, ps[0], ending), Cut(ps[0], |source|);
      && AllLocated(ps[1..], |source|)
      && Bodies(source, ps, ending) == [Edit(p.start, |p.pattern|, target[..cut])] + Bodies(source, ps[1..], ending)
      && Tails(source, ps, ending) == target[cut..] + Tails(source, ps[1..], ending)
      && Blocks(source, ps, ending) == [Edit(p.start, |p.pattern|, target)] + Blocks(source, ps[1..], ending)
  {
    hide Increasing, Target, Cut;
    if ps != [] {
      assert InFile(ps[0], |source|);
      BlockUnfold(source, ps, ending);
      hide Bodies, Tails, InFile;
    }
  }

  lemma CutAtEnd(p: Placement, n: nat)
    requires InFile(p, n)
    ensures Cut(p, n) < |p.replacement| ==> p.start + |p.pattern| == n
    ensures p.start == n ==> Cut(p, n) == 0
  {
  }

  lemma {:induction false} BodiesPastEnd(source: seq<SourceLine>, ps: seq<Placement>, ending: LineEnding)
    requires AllLocated(ps, |source|) && InFileOrder(ps, |source|, |source|)
    ensures Ordered(Bodies(source, ps, ending), |source|)
    ensures Splice(source, Bodies(source, ps, ending), |source|) == []
  {
    hide Splice, Ordered, Increasing, Bodies, Tails, Blocks, Target, Cut;
    Unfold(source, ps, ending);
    if ps == [] {
      SpliceNothing(source, Bodies(source, ps, ending), |source|);
    } else {
      assert InFile(ps[0], |source|);
      BodiesPastEnd(source, ps[1..], ending);
      CutAtEnd(ps[0], |source|);
      var nothing := Target(source, ps[0], ending)[..0];
      SpliceEdit(source, Edit(|source|, 0, nothing), Bodies(source, ps[1..], ending));
    }
  }

  /** Without pure insertions, bodies and tails together are the whole targets in place. */
  lemma {:induction false} BodiesAreBlocks(source: seq<SourceLine>, ps: seq<Placement>, from: nat, ending: LineEnding)
    requires AllLocated(ps, |source|) && InFileOrder(ps, from, |source|) && from <= |source|
    ensures Ordered(Bodies(source, ps, ending), from) && Ordered(Blocks(source, ps, ending), from)
    ensures Splice(source, Bodies(source, ps, ending), from) + Tails(source, ps, ending)
            == Splice(source, Blocks(source, ps, ending), from)
    decreases |ps|
  {
    hide Splice, Ordered, Increasing, Bodies, Tails, Blocks, Target, Cut;
    Unfold(source, ps, ending);
    if ps == [] {
      SpliceNothing(source, Bodies(source, ps, ending), from);
      assert source[from..] + [] == source[from..];
    } else {
      var p := ps[0];
      assert InFile(p, |source|);
      BodiesAreBlocks(source, ps[1..], p.start + |p.pattern|, ending);
      CutAtEnd(p, |source|);
      if Cut(p, |source|) < |p.replacement| {
        BodiesPastEnd(source, ps[1..], ending);
      }
      hide InFile, InFileOrder, AllLocated;
      BlockStep(source, p, Target(source, p, ending), Cut(p, |source|), from, Bodies(source, ps[1..], ending),
                Tails(source, ps[1..], ending), Blocks(source, ps[1..], ending));
    }
  }

  lemma BlockStep(source: seq<SourceLine>, p: Placement, target: seq<SourceLine>, cut: nat, from: nat,
                  bodies: seq<Edit<SourceLine>>, tails: seq<SourceLine>, blocks: seq<Edit<SourceLine>>)
    requires p.Located? && from <= p.start <= |source| && cut <= |target|
    requires var end := p.start + |p.pattern|;
      && Ordered(bodies, end) && Ordered(blocks, end)
      && Splice(source, bodies, end) + tails == Splice(source, blocks, end)
      && (cut < |target| ==> Splice(source, bodies, end) == [])
    ensures var body, block := Edit(p.start, |p.pattern|, target[..cut]), Edit(p.start, |p.pattern|, target);
      && Ordered([body] + bodies, from) && Ordered([block] + blocks, from)
      && Splice(source, [body] + bodies, from) + (target[cut..] + tails) == Splice(source, [block] + blocks, from)
  {
    hide Splice, Ordered;
    var body, block := Edit(p.start, |p.pattern|, target[..cut]), Edit(p.start, |p.pattern|, target);
    SpliceEdit(source, body, bodies);
    SpliceSkip(source, [body] + bodies, from, p.start);
    SpliceEdit(source, block, blocks);
    SpliceSkip(source, [block] + blocks, from, p.start);
    Rejoin(source[from..p.start], target, cut, Splice(source, bodies, p.start + |p.pattern|), tails);
  }

  lemma Rejoin<T>(before: seq<T>, target: seq<T>, cut: nat, after: seq<T>, tail: seq<T>)
    requires cut <= |target| && (cut < |target| ==> after == [])
    ensures before + (target[..cut] + after) + (target[cut..] + tail) == before + (target + (after + tail))
  {
  }

  /** Without pure insertions an update replaces every located block by its target, and
      touches nothing else. */
  lemma BlocksMeaning(source: seq<SourceLine>, chunks: seq<UpdateFileChunk>, ps: seq<Placement>, ending: LineEnding)
    requires ChunksOk(chunks) && Place(Texts(source), chunks, 0, PreserveLineEndings) == Ok(ps)
    requires forall i :: 0 <= i < |ps| ==> ps[i].Located?
    ensures AllLocated(ps, |source|) && Ordered(Blocks(source, ps, ending), 0)
    ensures var computed := ComputedEdits(Texts(source), chunks, PreserveLineEndings);
      && computed.Ok? && Ordered(LineEdits(computed.value, ending), 0)
      && Splice(source, LineEdits(computed.value, ending), 0) == Splice(source, Blocks(source, ps, ending), 0)
  {
    hide Splice, Ordered, Place, InFile, InFileOrder, Bodies, Tails, Blocks, ComputedEdits, LineEdits;
    PlacedInFileOrder(Texts(source), chunks, 0, PreserveLineEndings);
    PreserveMeaning(source, chunks, ps, ending);
    BodiesAreBlocks(source, ps, 0, ending);
  }

  // ---------------------------------------------------------------- edit scripts

  datatype Op = Keep | Delete | Add(text: string)

  /** How many lines of the file a script walks over. */
  function Consumed(script: seq<Op>): nat {
    if script == [] then 0
    else Consumed(script[..|script| - 1]) + if script[|script| - 1].Add? then 0 else 1
  }

  /** The chunk the parser builds from a script's lines, one push per operation. */
  function ScriptChunk(script: seq<Op>, texts: seq<string>): UpdateFileChunk
    requires Consumed(script) <= |texts|
  {
    if script == [] then EMPTY_CHUNK
    else
      var before := script[..|script| - 1];
      var chunk := ScriptChunk(before, texts);
      match script[|script| - 1]
      case Keep => chunk.PushContextLine(texts[Consumed(before)])
      case Delete => chunk.PushRemoved(texts[Consumed(before)])
      case Add(text) => chunk.PushAdded(text)
  }

  /** What a script asks for: kept lines as they are (an unterminated one gains the preferred
      ending), added lines with the preferred ending. */
  function ScriptResult(script: seq<Op>, lines: seq<SourceLine>, ending: LineEnding): seq<SourceLine>
    requires Consumed(script) <= |lines|
  {
    if script == [] then []
    else
      var before := script[..|script| - 1];
      var done := ScriptResult(before, lines, ending);
      match script[|script| - 1]
      case Keep => done + [Terminated(lines[Consumed(before)], ending)]
      case Delete => done
      case Add(text) => done + [SourceLine(text, Some(ending))]
  }

  lemma {:induction false} KeptFromSnoc(context: seq<(nat, nat)>, last: (nat, nat), oldLen: nat, j: nat)
    ensures KeptFrom(context + [last], oldLen, j)
            == if KeptFrom(context, oldLen, j).Some? then KeptFrom(context, oldLen, j)
               else if last.1 == j && last.0 < oldLen then Some(last.0) else None
  {
    if context != [] {
      KeptFromSnoc(context[1..], last, oldLen, j);
      assert (context + [last])[1..] == context[1..] + [last];
    }
  }

  lemma {:induction false} NotKept(context: seq<(nat, nat)>, oldLen: nat, j: nat)
    requires forall k :: 0 <= k < |context| ==> context[k].1 != j
    ensures KeptFrom(context, oldLen, j) == None
  {
    if context != [] {
      NotKept(context[1..], oldLen, j);
    }
  }

  /** Line `j` of the result is what the chunk says about new line `j`. */
  ghost predicate LineFollows(chunk: UpdateFileChunk, lines: seq<SourceLine>, ending: LineEnding,
                              result: seq<SourceLine>, j: nat)
    requires j < |chunk.newLines| && j < |result|
  {
    match KeptFrom(chunk.contextLineIndices, |lines|, j)
    case Some(o) => result[j] == Terminated(lines[o], ending)
    case None => result[j] == SourceLine(chunk.newLines[j], Some(ending))
  }

  /** `chunk` covers the first `n` lines of the file and turns them into `result`. */
  ghost predicate Follows(chunk: UpdateFileChunk, n: nat, lines: seq<SourceLine>, ending: LineEnding,
                          result: seq<SourceLine>)
    requires n <= |lines|
  {
    && chunk.ContextOk() && chunk.changeContext == None && !chunk.isEndOfFile
    && chunk.oldLines == Texts(lines)[..n]
    && |chunk.newLines| == |result|
    && forall j :: 0 <= j < |result| ==> LineFollows(chunk, lines, ending, result, j)
  }

  lemma KeepFollows(chunk: UpdateFileChunk, n: nat, lines: seq<SourceLine>, ending: LineEnding, result: seq<SourceLine>)
    requires n < |lines| && Follows(chunk, n, lines, ending, result)
    ensures Follows(chunk.PushContextLine(lines[n].text), n + 1, lines, ending, result + [Terminated(lines[n], ending)])
  {
    var next, extended := chunk.PushContextLine(lines[n].text), result + [Terminated(lines[n], ending)];
    chunk.PushKeepsContextOk(lines[n].text);
    forall j | 0 <= j < |extended|
      ensures LineFollows(next, lines, ending, extended, j)
    {
      if j < |result| {
        assert LineFollows(chunk, lines, ending, result, j);
      } else {
        NotKept(chunk.contextLineIndices, |lines|, j);
      }
      hide KeptFrom, UpdateFileChunk.ContextOk;
      KeptFromSnoc(chunk.contextLineIndices, (n, |result|), |lines|, j);
    }
  }

  lemma AddFollows(chunk: UpdateFileChunk, n: nat, lines: seq<SourceLine>, ending: LineEnding, result: seq<SourceLine>,
                   text: string)
    requires n <= |lines| && Follows(chunk, n, lines, ending, result)
    ensures Follows(chunk.PushAdded(text), n, lines, ending, result + [SourceLine(text, Some(ending))])
  {
    var next, extended := chunk.PushAdded(text), result + [SourceLine(text, Some(ending))];
    chunk.PushKeepsContextOk(text);
    forall j | 0 <= j < |extended|
      ensures LineFollows(next, lines, ending, extended, j)
    {
      if j < |result| {
        assert LineFollows(chunk, lines, ending, result, j);
      } else {
        NotKept(chunk.contextLineIndices, |lines|, j);
      }
    }
  }

  lemma DeleteFollows(chunk: UpdateFileChunk, n: nat, lines: seq<SourceLine>, ending: LineEnding,
                      result: seq<SourceLine>)
    requires n < |lines| && Follows(chunk, n, lines, ending, result)
    ensures Follows(chunk.PushRemoved(lines[n].text), n + 1, lines, ending, result)
  {
    chunk.PushKeepsContextOk(lines[n].text);
    forall j | 0 <= j < |result|
      ensures LineFollows(chunk.PushRemoved(lines[n].text), lines, ending, result, j)
    {
      assert LineFollows(chunk, lines, ending, result, j);
    }
  }

  lemma {:induction false} ScriptChunkFollows(script: seq<Op>, lines: seq<SourceLine>, ending: LineEnding)
    requires Consumed(script) <= |lines|
    ensures Follows(ScriptChunk(script, Texts(lines)), Consumed(script), lines, ending,
                    ScriptResult(script, lines, ending))
  {
    if script != [] {
      var before := script[..|script| - 1];
      ScriptChunkFollows(before, lines, ending);
      var chunk, n, done := ScriptChunk(before, Texts(lines)), Consumed(before), ScriptResult(before, lines, ending);
      hide Follows;
      match script[|script| - 1] {
        case Keep => KeepFollows(chunk, n, lines, ending, done);
        case Delete => DeleteFollows(chunk, n, lines, ending, done);
        case Add(text) => AddFollows(chunk, n, lines, ending, done, text);
      }
    }
  }

  lemma ScriptPlacement(script: seq<Op>, lines: seq<SourceLine>, ending: LineEnding)
    requires Consumed(script) == |lines|
    ensures var chunk := ScriptChunk(script, Texts(lines));
      && ChunksOk([chunk])
      && Place(Texts(lines), [chunk], 0, PreserveLineEndings) == Ok([
           if lines == [] then AtEnd(0, chunk.newLines)
           else Located(0, Texts(lines), chunk.newLines, chunk.contextLineIndices)])
  {
    var texts := Texts(lines);
    var chunk := ScriptChunk(script, texts);
    ScriptChunkFollows(script, lines, ending);
    hide ScriptChunk, ScriptResult, Seek;
    assert texts[..|lines|] == texts == texts[0..0 + |texts|];
    SeekAtStart(texts, texts, 0);
    assert PlaceChunk(texts, chunk, 0, PreserveLineEndings) == Ok(
      if lines == [] then AtEnd(0, chunk.newLines) else Located(0, texts, chunk.newLines, chunk.contextLineIndices));
    OnePlacement(texts, chunk, PreserveLineEndings);
  }

  lemma OnePlacement(lines: seq<string>, chunk: UpdateFileChunk, mode: UpdateMode)
    requires chunk.changeContext == None
    ensures var placed := PlaceChunk(lines, chunk, 0, mode);
      Place(lines, [chunk], 0, mode) == if placed.Ok? then Ok([placed.value]) else Err(placed.error)
  {
    hide PlaceChunk;
    var placed := PlaceChunk(lines, chunk, 0, mode);
    assert [chunk][0] == chunk && [chunk][1..] == [];
    assert AfterContext(lines, chunk, 0, mode) == Ok(0);
    if placed.Ok? {
      assert Place(lines, [chunk][1..], placed.value.Next(0), mode) == Ok([]);
      assert [placed.value] + [] == [placed.value];
    }
  }

  /** For any file and any script over exactly its lines, the patch built from the script
      turns the file into the script's result. */
  lemma EditScriptCorrect(contents: string, script: seq<Op>)
    requires Consumed(script) == |ParseLines(contents)|
    ensures var lines := ParseLines(contents);
      var chunk := ScriptChunk(script, Texts(lines));
      && ChunksOk([chunk])
      && ApplyUpdate.Updated(contents, [chunk], PreserveLineEndings)
         == Ok(Render(ScriptResult(script, lines, PreferredEnding(lines))))
  {
    hide ParseLines, Render, Place, ScriptChunk, ScriptResult, PreferredEnding, Splice, ComputedEdits, LineEdits,
         Follows;
    var lines := ParseLines(contents);
    var ending := PreferredEnding(lines);
    var chunk := ScriptChunk(script, Texts(lines));
    ScriptPlacement(script, lines, ending);
    ApplyUpdate.ParsedUpdatesNeverPanic(contents, [chunk], PreserveLineEndings);
    if lines == [] {
      ScriptOnEmptyFile(script, lines, ending);
    } else {
      ScriptOnLines(script, lines, ending);
    }
  }

  lemma ScriptOnEmptyFile(script: seq<Op>, lines: seq<SourceLine>, ending: LineEnding)
    requires Consumed(script) == |lines| == 0
    ensures var chunk := ScriptChunk(script, Texts(lines));
      var computed := ComputedEdits(Texts(lines), [chunk], PreserveLineEndings);
      && ChunksOk([chunk])
      && computed.Ok? && Ordered(LineEdits(computed.value, ending), 0)
      && Terminate(Splice(lines, LineEdits(computed.value, ending), 0), ending) == ScriptResult(script, lines, ending)
  {
    hide ScriptChunk, ScriptResult, ComputedEdits, LineEdits, Place, Splice, Ordered;
    var chunk, result := ScriptChunk(script, Texts(lines)), ScriptResult(script, lines, ending);
    ScriptPlacement(script, lines, ending);
    ScriptChunkFollows(script, lines, ending);
    var ps := [AtEnd(0, chunk.newLines)];
    PreserveMeaning(lines, [chunk], ps, ending);
    EmptyFileInsertion(chunk.newLines, lines, ending);
    hide Bodies, Tails, InFile;
    OnlyAdditions(chunk, lines, ending, result);
  }

  lemma OnlyAdditions(chunk: UpdateFileChunk, lines: seq<SourceLine>, ending: LineEnding, result: seq<SourceLine>)
    requires lines == [] && Follows(chunk, 0, lines, ending, result)
    ensures Terminate(Inserted(chunk.newLines, ending), ending) == result
  {
    forall j | 0 <= j < |result|
      ensures result[j] == SourceLine(chunk.newLines[j], Some(ending))
    {
      assert LineFollows(chunk, lines, ending, result, j);
    }
  }

  lemma EmptyFileInsertion(added: seq<string>, lines: seq<SourceLine>, ending: LineEnding)
    requires lines == []
    ensures var ps := [AtEnd(0, added)];
      && Ordered(Bodies(lines, ps, ending), 0)
      && Splice(lines, Bodies(lines, ps, ending), 0) + Tails(lines, ps, ending) == Inserted(added, ending)
  {
    var ps := [AtEnd(0, added)];
    assert ps[1..] == [];
    hide Inserted;
    assert Bodies(lines, ps, ending) == [];
    assert Tails(lines, ps, ending) == Inserted(added, ending);
  }

  lemma ScriptOnLines(script: seq<Op>, lines: seq<SourceLine>, ending: LineEnding)
    requires Consumed(script) == |lines| > 0
    ensures var chunk := ScriptChunk(script, Texts(lines));
      var computed := ComputedEdits(Texts(lines), [chunk], PreserveLineEndings);
      && ChunksOk([chunk])
      && computed.Ok? && Ordered(LineEdits(computed.value, ending), 0)
      && Terminate(Splice(lines, LineEdits(computed.value, ending), 0), ending) == ScriptResult(script, lines, ending)
  {
    hide ScriptChunk, ScriptResult, ComputedEdits, LineEdits, Place, Splice, Ordered;
    var chunk, result := ScriptChunk(script, Texts(lines)), ScriptResult(script, lines, ending);
    ScriptPlacement(script, lines, ending);
    ScriptChunkFollows(script, lines, ending);
    var p := Located(0, Texts(lines), chunk.newLines, chunk.contextLineIndices);
    BlocksMeaning(lines, [chunk], [p], ending);
    WholeFileBlock(lines, p, ending);
    var target := Target(lines, p, ending);
    forall j | 0 <= j < |result|
      ensures Terminated(target[j], ending) == result[j]
    {
      assert LineFollows(chunk, lines, ending, result, j);
    }
    assert Terminate(target, ending) == result;
  }

  lemma WholeFileBlock(lines: seq<SourceLine>, p: Placement, ending: LineEnding)
    requires InFile(p, |lines|) && p.start == 0 && |p.pattern| == |lines|
    ensures AllLocated([p], |lines|) && Ordered(Blocks(lines, [p], ending), 0)
    ensures Splice(lines, Blocks(lines, [p], ending), 0) == Target(lines, p, ending)
  {
    var target := Target(lines, p, ending);
    assert [p][1..] == [];
    assert Blocks(lines, [p], ending) == [Edit(0, |lines|, target)] + [];
    SpliceEdit(lines, Edit(0, |lines|, target), []);
    assert lines[|lines|..] == [];
  }
}
