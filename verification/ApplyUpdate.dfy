/** Applying a patch to the contents of a file, in both modes (file_update.rs). */
module ApplyUpdate {
  import opened Text
  import opened TextFile
  import opened LineSearch
  import opened Patch
  import opened FileUpdate
  import opened EditSafety

  // ---------------------------------------------------------------- the reverse in-place applier

  function ApplyOne<T>(lines: seq<T>, e: Edit<T>): seq<T>
    requires e.start <= |lines|
  {
    lines[..e.start] + e.newLines + lines[Min(e.End(), |lines|)..]
  }

  /** Sorted edits that start inside the file: enough for the reverse loop never to panic. */
  predicate Applicable<T>(edits: seq<Edit<T>>, n: nat) {
    SortedByStart(edits) && forall i :: 0 <= i < |edits| ==> edits[i].start <= n
  }

  function ApplyBackwards<T>(lines: seq<T>, edits: seq<Edit<T>>): (r: seq<T>)
    requires Applicable(edits, |lines|)
    ensures edits == [] || edits[0].start <= |r|
  {
    if edits == [] then lines
    else
      var rest := ApplyBackwards(lines, edits[1..]);
      assert |edits| > 1 ==> edits[1..][0].start >= edits[0].start;
      ApplyOne(rest, edits[0])
  }

  /** The last edit first, so that earlier positions stay valid. */
  method ApplyReplacements(source: seq<string>, replacements: seq<Replacement>) returns (lines: seq<string>)
    requires Applicable(replacements, |source|)
    ensures lines == ApplyBackwards(source, replacements)
  {
    lines := source;
    var k := |replacements|;
    assert replacements[k..] == [];
    while k > 0
      invariant 0 <= k <= |replacements|
      invariant Applicable(replacements[k..], |source|)
      invariant lines == ApplyBackwards(source, replacements[k..])
    {
      k := k - 1;
      assert replacements[k..][1..] == replacements[k + 1..] && replacements[k..][0] == replacements[k];
      lines := ReplaceInPlace(lines, replacements[k]);
    }
    assert replacements[0..] == replacements;
  }

  /** Removes old lines one at a time, then inserts the new ones one at a time. */
  method ReplaceInPlace(before: seq<string>, r: Replacement) returns (lines: seq<string>)
    requires r.start <= |before|
    ensures lines == ApplyOne(before, r)
  {
    lines := before;
    for removed := 0 to r.oldLen
      invariant lines == before[..r.start] + before[Min(r.start + removed, |before|)..]
    {
      if r.start < |lines| {
        lines := lines[..r.start] + lines[r.start + 1..];
      }
    }
    ghost var rest := before[Min(r.End(), |before|)..];
    for offset := 0 to |r.newLines|
      invariant lines == before[..r.start] + r.newLines[..offset] + rest
    {
      lines := InsertAt(lines, r.start + offset, r.newLines[offset]);
    }
  }

  function InsertAt(lines: seq<string>, i: nat, line: string): seq<string>
    requires i <= |lines|
  {
    lines[..i] + [line] + lines[i..]
  }

  // ---------------------------------------------------------------- two appliers, one meaning

  /** Applying the last edit first leaves everything before the first edit alone. */
  lemma {:induction false} BackwardsIsSplice<T>(lines: seq<T>, edits: seq<Edit<T>>, from: nat)
    requires Within(edits, from, |lines|)
    ensures Applicable(edits, |lines|) && Ordered(edits, from)
    ensures ApplyBackwards(lines, edits) == lines[..from] + Splice(lines, edits, from)
    decreases |edits|
  {
    WithinBounds(edits, from, |lines|);
    WithinSorted(edits, from, |lines|);
    if edits == [] {
      assert lines == lines[..from] + lines[from..];
    } else {
      var e := edits[0];
      BackwardsIsSplice(lines, edits[1..], e.End());
      var tail := Splice(lines, edits[1..], e.End());
      WithinBounds(edits[1..], e.End(), |lines|);
      assert ApplyBackwards(lines, edits) == ApplyOne(lines[..e.End()] + tail, e);
      assert Splice(lines, edits, from) == lines[from..e.start] + e.newLines + tail;
      hide ApplyBackwards, Splice, Within, Applicable, Ordered, SortedByStart;
      AppliedBefore(lines, e, from, tail);
    }
  }

  lemma AppliedBefore<T>(lines: seq<T>, e: Edit<T>, from: nat, tail: seq<T>)
    requires from <= e.start && e.End() <= |lines|
    ensures ApplyOne(lines[..e.End()] + tail, e) == lines[..from] + (lines[from..e.start] + e.newLines + tail)
  {
    var whole := lines[..e.End()] + tail;
    assert whole[..e.start] == lines[..from] + lines[from..e.start];
    assert whole[Min(e.End(), |whole|)..] == tail;
    Associative(lines[..from], lines[from..e.start], e.newLines);
    Associative(lines[..from], lines[from..e.start] + e.newLines, tail);
  }

  lemma {:induction false} WithinSorted<T>(edits: seq<Edit<T>>, lo: nat, hi: nat)
    requires Within(edits, lo, hi)
    ensures SortedByStart(edits)
    decreases |edits|
  {
    if edits != [] {
      WithinSorted(edits[1..], edits[0].End(), hi);
      WithinBounds(edits[1..], edits[0].End(), hi);
      assert forall i :: 1 <= i < |edits| ==> edits[i] == edits[1..][i - 1];
    }
  }

  function TextEdits(edits: seq<Edit<SourceLine>>): (rs: seq<Replacement>)
    ensures |rs| == |edits|
    ensures forall i :: 0 <= i < |rs| ==> rs[i] == Edit(edits[i].start, edits[i].oldLen, Texts(edits[i].newLines))
  {
    seq(|edits|, i requires 0 <= i < |edits| => Edit(edits[i].start, edits[i].oldLen, Texts(edits[i].newLines)))
  }

  lemma TextsOfLineEdits(rs: seq<Replacement>, ending: LineEnding)
    ensures TextEdits(LineEdits(rs, ending)) == rs
  {
    forall i | 0 <= i < |rs|
      ensures Texts(Inserted(rs[i].newLines, ending)) == rs[i].newLines
    {
    }
  }

  /** The forward rebuild acts on the texts of the lines just as on the lines. */
  lemma {:induction false} TextsOfSplice(lines: seq<SourceLine>, edits: seq<Edit<SourceLine>>, from: nat)
    requires Ordered(edits, from)
    ensures Ordered(TextEdits(edits), from)
    ensures Texts(Splice(lines, edits, from)) == Splice(Texts(lines), TextEdits(edits), from)
    decreases |edits|
  {
    hide Splice;
    SpliceUnfold(lines, edits, from);
    if edits == [] {
      SpliceUnfold(Texts(lines), TextEdits(edits), from);
      assert Texts(lines[Min(from, |lines|)..]) == Texts(lines)[Min(from, |lines|)..];
    } else {
      var e := edits[0];
      TextsOfSplice(lines, edits[1..], e.End());
      assert TextEdits(edits)[1..] == TextEdits(edits[1..]);
      assert Ordered(TextEdits(edits), from);
      hide Ordered;
      SpliceUnfold(Texts(lines), TextEdits(edits), from);
      var kept, rest := Between(lines, from, e.start), Splice(lines, edits[1..], e.End());
      assert Texts(kept) == Between(Texts(lines), from, e.start);
      hide Between, TextEdits, Texts;
      TextsConcat(kept, e.newLines);
      TextsConcat(kept + e.newLines, rest);
    }
  }

  lemma TextsConcat(a: seq<SourceLine>, b: seq<SourceLine>)
    ensures Texts(a + b) == Texts(a) + Texts(b)
  {
  }

  /** On ordered, disjoint edits inside the file, the reverse loop and the forward rebuild
      produce the same line texts: those of the functional splice. */
  lemma TwoAppliersAgree(lines: seq<SourceLine>, rs: seq<Replacement>, ending: LineEnding)
    requires Ordered(rs, 0) && forall i :: 0 <= i < |rs| ==> rs[i].End() <= |lines|
    ensures Applicable(rs, |lines|) && Ordered(LineEdits(rs, ending), 0)
    ensures var rebuilt := Terminate(Splice(lines, LineEdits(rs, ending), 0), ending);
      Texts(rebuilt) == ApplyBackwards(Texts(lines), rs) == Splice(Texts(lines), rs, 0)
  {
    OrderedWithin(rs, 0, |lines|);
    BackwardsIsSplice(Texts(lines), rs, 0);
    LineEditsOrdered(rs, ending, 0);
    TextsOfSplice(lines, LineEdits(rs, ending), 0);
    TextsOfLineEdits(rs, ending);
    hide Splice, Ordered, ApplyBackwards, Applicable;
    var spliced := Splice(lines, LineEdits(rs, ending), 0);
    assert Texts(Terminate(spliced, ending)) == Texts(spliced);
    assert Texts(lines)[..0] + Splice(Texts(lines), rs, 0) == Splice(Texts(lines), rs, 0);
  }

  lemma {:induction false} OrderedWithin<T>(edits: seq<Edit<T>>, lo: nat, hi: nat)
    requires Ordered(edits, lo) && lo <= hi
    requires forall i :: 0 <= i < |edits| ==> edits[i].End() <= hi
    ensures Within(edits, lo, hi)
    decreases |edits|
  {
    if edits != [] {
      assert edits[0].End() <= hi;
      OrderedWithin(edits[1..], edits[0].End(), hi);
    }
  }

  // ---------------------------------------------------------------- apply_update

  function SplitLines(contents: string): seq<string> {
    var pieces := SplitLf(contents);
    if EndsBlank(pieces) then WithoutLast(pieces) else pieces
  }

  function JoinLines(lines: seq<string>): string {
    JoinLf(if EndsBlank(lines) then lines else lines + [""])
  }

  /** The updated contents: located edits, spliced in. Edits out of order, which only chunks built
      by hand could give, fail the forward rebuild's own assertion. */
  function Updated(contents: string, chunks: seq<UpdateFileChunk>, mode: UpdateMode): Result<string, UpdateError> {
    match mode
    case NormalizeToLf =>
      var lines := SplitLines(contents);
      var edits :- ComputedEdits(lines, chunks, mode);
      NormalizedApplicable(lines, chunks);
      Ok(JoinLines(ApplyBackwards(lines, edits)))
    case PreserveLineEndings =>
      var lines := ParseLines(contents);
      var ending := PreferredEnding(lines);
      var edits :- ComputedEdits(Texts(lines), chunks, mode);
      if !Ordered(edits, 0) then Err(Underflow)
      else
        LineEditsOrdered(edits, ending, 0);
        Ok(Render(Terminate(Splice(lines, LineEdits(edits, ending), 0), ending)))
  }

  lemma NormalizedApplicable(lines: seq<string>, chunks: seq<UpdateFileChunk>)
    ensures var r := ComputedEdits(lines, chunks, NormalizeToLf);
      r.Ok? ==> Applicable(r.value, |lines|)
  {
    hide StableSort;
    NormalizedStarts(lines, chunks, 0);
    var r := AllEdits(lines, chunks, 0, NormalizeToLf);
    if r.Ok? {
      SortSorts(r.value);
      var sorted := StableSort(r.value);
      forall i | 0 <= i < |sorted|
        ensures sorted[i].start <= |lines|
      {
        assert sorted[i] in multiset(r.value);
      }
    }
  }

  method ApplyUpdateToText(contents: string, chunks: seq<UpdateFileChunk>, mode: UpdateMode)
    returns (r: Result<string, UpdateError>)
    ensures r == Updated(contents, chunks, mode)
  {
    if mode == NormalizeToLf {
      var originalLines := SplitLf(contents);
      if EndsBlank(originalLines) {
        originalLines := WithoutLast(originalLines);
      }
      var replacements := ComputeReplacements(originalLines, chunks, mode);
      if replacements.Err? {
        return Err(replacements.error);
      }
      NormalizedApplicable(originalLines, chunks);
      var newLines := ApplyReplacements(originalLines, replacements.value);
      if !EndsBlank(newLines) {
        newLines := newLines + [""];
      }
      return Ok(JoinLf(newLines));
    }
    var sourceFile := new SourceFile.Parse(contents);
    var originalLines := sourceFile.LineTexts();
    var replacements := ComputeReplacements(originalLines, chunks, mode);
    if replacements.Err? {
      return Err(replacements.error);
    }
    if !Ordered(replacements.value, 0) {
      return Err(Underflow);
    }
    sourceFile.ApplyReplacements(replacements.value);
    var updated := sourceFile.IntoContents();
    return Ok(updated);
  }

  /** For parsed chunks the assertion never fires: an update fails only where a context or a block
      is not found. */
  lemma ParsedUpdatesNeverPanic(contents: string, chunks: seq<UpdateFileChunk>, mode: UpdateMode)
    requires ChunksOk(chunks)
    ensures Updated(contents, chunks, mode) != Err(Underflow)
    ensures mode == PreserveLineEndings ==>
      var edits := ComputedEdits(Texts(ParseLines(contents)), chunks, mode);
      if edits.Err? then Updated(contents, chunks, mode) == Err(edits.error)
      else
        && Ordered(edits.value, 0) && Ordered(LineEdits(edits.value, PreferredEnding(ParseLines(contents))), 0)
        && var ending := PreferredEnding(ParseLines(contents));
           Updated(contents, chunks, mode)
           == Ok(Render(Terminate(Splice(ParseLines(contents), LineEdits(edits.value, ending), 0), ending)))
  {
    hide ComputedEdits, ParseLines, Splice, Ordered, LineEdits, SplitLines, JoinLines, ApplyBackwards, Render,
         PreferredEnding;
    if mode == PreserveLineEndings {
      SafeEdits(Texts(ParseLines(contents)), chunks, mode);
      var edits := ComputedEdits(Texts(ParseLines(contents)), chunks, mode);
      if edits.Ok? {
        LineEditsOrdered(edits.value, PreferredEnding(ParseLines(contents)), 0);
      }
    } else {
      NeverUnderflows(SplitLines(contents), chunks);
    }
  }

  lemma NeverUnderflows(lines: seq<string>, chunks: seq<UpdateFileChunk>)
    ensures ComputedEdits(lines, chunks, NormalizeToLf) != Err(Underflow)
  {
    hide StableSort, AllEdits;
    NormalizedStarts(lines, chunks, 0);
  }
}
