/** From patch text to file text: parsed patches are safe to apply, and a patch printed from
    an edit script, parsed and applied, performs the script. */
module PatchApplies {
  import opened Text
  import opened TextFile
  import LineSearch
  import opened Patch
  import FileUpdate
  import EditSafety
  import ApplyUpdate
  import opened UpdateResults
  import ParserRuns
  import opened PatchText
  import opened PatchPrinter
  import PrintRoundTrip
  import opened ParserRange

  lemma ParsedChunksOk(patch: string, mode: ParseMode, i: nat)
    requires Parsed(patch, mode).Ok?
    requires i < |Parsed(patch, mode).value.hunks| && Parsed(patch, mode).value.hunks[i].UpdateFile?
    ensures EditSafety.ChunksOk(Parsed(patch, mode).value.hunks[i].chunks)
  {
    hide Parsed;
    ParsedIsComplete(patch, mode);
    var hunk := Parsed(patch, mode).value.hunks[i];
    assert ParserRuns.HunkValid(hunk);
    hide UpdateFileChunk.ContextOk;
    assert ParserRuns.ChunksValid(hunk.chunks);
  }

  /** Whatever the patch text and the file: the edits of a parsed update hunk are ordered,
      disjoint and in bounds, and no index subtraction underflows. */
  lemma ParsedEditsAreSafe(patch: string, mode: ParseMode, i: nat, lines: seq<string>)
    requires Parsed(patch, mode).Ok?
    requires i < |Parsed(patch, mode).value.hunks| && Parsed(patch, mode).value.hunks[i].UpdateFile?
    ensures var r := FileUpdate.ComputedEdits(lines, Parsed(patch, mode).value.hunks[i].chunks,
                                              LineSearch.PreserveLineEndings);
      && r != Err(FileUpdate.Underflow)
      && (r.Ok? ==> Ordered(r.value, 0) && forall e :: 0 <= e < |r.value| ==> r.value[e].End() <= |lines|)
  {
    hide Parsed, FileUpdate.ComputedEdits, Ordered;
    ParsedChunksOk(patch, mode, i);
    EditSafety.SafeEdits(lines, Parsed(patch, mode).value.hunks[i].chunks, LineSearch.PreserveLineEndings);
  }

  predicate ScriptPrintable(script: seq<Op>) {
    forall i :: 0 <= i < |script| ==> script[i].Add? ==> IsPlain(script[i].text, true)
  }

  lemma ParsedTextsPrintable(contents: string)
    ensures ArePlain(Texts(ParseLines(contents)), true)
  {
    ParseIsCanonical(contents);
    CanonicalTextsPrintable(ParseLines(contents));
  }

  lemma {:induction false} CanonicalTextsPrintable(lines: seq<SourceLine>)
    requires Canonical(lines)
    ensures ArePlain(Texts(lines), true)
  {
    if lines != [] {
      assert Plain(lines[0].text) && IsPlain(lines[0].text, true);
      hide IsPlain;
      CanonicalTextsPrintable(lines[1..]);
      assert ArePlain([lines[0].text] + Texts(lines[1..]), true);
    }
  }

  /** A script's chunk has only printable lines, and one for every operation at least. */
  lemma {:induction false} ScriptChunkPrintable(script: seq<Op>, texts: seq<string>)
    requires ScriptPrintable(script) && Consumed(script) <= |texts| && ArePlain(texts, true)
    ensures var chunk := ScriptChunk(script, texts);
      && ArePlain(chunk.oldLines, true) && ArePlain(chunk.newLines, true)
      && chunk.changeContext == None && !chunk.isEndOfFile
      && (script != [] ==> !chunk.IsEmpty())
  {
    hide IsPlain;
    if script != [] {
      assert ScriptPrintable(script[..|script| - 1]);
      ScriptChunkPrintable(script[..|script| - 1], texts);
    }
  }

  /** Print, parse and apply: for any file and any script over exactly its lines, the printed
      patch parses to the script's chunk, and applying that yields the script's result. */
  lemma PrintedScriptCorrect(contents: string, script: seq<Op>, path: string, mode: ParseMode)
    requires Consumed(script) == |ParseLines(contents)| && script != []
    requires ScriptPrintable(script) && IsName(path)
    ensures var lines := ParseLines(contents);
      var hunk := UpdateFile(path, None, [ScriptChunk(script, Texts(lines))]);
      var text := Print([hunk], None);
      && Parsed(text, mode) == Ok(ParsedPatch([hunk], text, None))
      && EditSafety.ChunksOk(hunk.chunks)
      && ApplyUpdate.Updated(contents, hunk.chunks, LineSearch.PreserveLineEndings)
         == Ok(Render(ScriptResult(script, lines, PreferredEnding(lines))))
  {
    hide ParseLines, ScriptChunk, ScriptResult, Print, Parsed, ApplyUpdate.Updated, Render, PreferredEnding, IsName,
         ArePlain;
    var lines := ParseLines(contents);
    var chunk := ScriptChunk(script, Texts(lines));
    var hunk := UpdateFile(path, None, [chunk]);
    EditScriptCorrect(contents, script);
    ParsedTextsPrintable(contents);
    ScriptChunkPrintable(script, Texts(lines));
    assert [chunk][0].ContextOk();
    hide UpdateFileChunk.ContextOk, UpdateFileChunk.IsEmpty;
    PlainTexts(chunk.oldLines, true);
    PlainTexts(chunk.newLines, true);
    hide NoneHasLf, PrintRoundTrip.NoFinalCr;
    assert ChunkWellFormed(chunk);
    assert HunkWellFormed(hunk) && PrintRoundTrip.HunkHasNoCr(hunk);
    PrintRoundTrip.PrintParse([hunk], None, mode);
  }
}
