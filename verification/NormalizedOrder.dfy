/** Exactly when the edits of a NormalizeToLf update are ordered, and what is written when they
    are not. */
module NormalizedOrder {
  import opened Text
  import opened TextFile
  import opened LineSearch
  import opened Patch
  import opened FileUpdate
  import opened EditSafety
  import opened ApplyUpdate

  // ---------------------------------------------------------------- sorting and order

  /** Neither of two edits, the first one computed earlier, reaches into the other. */
  predicate Clear<T>(a: Edit<T>, b: Edit<T>) {
    if a.start <= b.start then a.End() <= b.start else b.End() <= a.start
  }

  ghost predicate ClearOf<T>(e: Edit<T>, edits: seq<Edit<T>>) {
    forall k :: 0 <= k < |edits| ==> Clear(e, edits[k])
  }

  ghost predicate AllClear<T>(edits: seq<Edit<T>>) {
    forall i, j :: 0 <= i < j < |edits| ==> Clear(edits[i], edits[j])
  }

  lemma {:induction false} OrderedFrom<T>(edits: seq<Edit<T>>, from: nat, to: nat)
    requires from <= to && SortedByStart(edits)
    ensures Ordered(edits, to) <==> Ordered(edits, from) && (edits != [] ==> to <= edits[0].start)
  {
  }

  lemma {:induction false} InsertOrdered<T>(e: Edit<T>, sorted: seq<Edit<T>>, from: nat)
    requires SortedByStart(sorted)
    ensures Ordered(InsertByStart(e, sorted), from) <==> from <= e.start && Ordered(sorted, from) && ClearOf(e, sorted)
    decreases |sorted|
  {
    if sorted == [] || e.start <= sorted[0].start {
      assert ([e] + sorted)[1..] == sorted;
      FirstClear(e, sorted);
      if from <= e.start {
        OrderedFrom(sorted, from, e.End());
      } else if sorted != [] && Ordered([e] + sorted, from) {
        assert false;
      }
    } else {
      var rest := InsertByStart(e, sorted[1..]);
      assert ([sorted[0]] + rest)[1..] == rest;
      InsertOrdered(e, sorted[1..], sorted[0].End());
      ClearOfCons(e, sorted);
    }
  }

  lemma ClearOfCons<T>(e: Edit<T>, edits: seq<Edit<T>>)
    requires edits != []
    ensures ClearOf(e, edits) <==> Clear(e, edits[0]) && ClearOf(e, edits[1..])
  {
    hide Clear;
    assert forall k :: 1 <= k < |edits| ==> edits[k] == edits[1..][k - 1];
  }

  /** Before a sorted list, only its first edit matters. */
  lemma FirstClear<T>(e: Edit<T>, sorted: seq<Edit<T>>)
    requires SortedByStart(sorted) && (sorted == [] || e.start <= sorted[0].start)
    ensures ClearOf(e, sorted) <==> sorted == [] || e.End() <= sorted[0].start
  {
  }

  lemma ClearOfSorted<T>(e: Edit<T>, edits: seq<Edit<T>>)
    ensures ClearOf(e, StableSort(edits)) <==> ClearOf(e, edits)
  {
    SortSorts(edits);
    hide Clear, StableSort;
    if ClearOf(e, edits) {
      SameMembers(e, edits, StableSort(edits));
    } else if ClearOf(e, StableSort(edits)) {
      SameMembers(e, StableSort(edits), edits);
    }
  }

  lemma SameMembers<T>(e: Edit<T>, a: seq<Edit<T>>, b: seq<Edit<T>>)
    requires multiset(a) == multiset(b) && ClearOf(e, a)
    ensures ClearOf(e, b)
  {
    hide Clear;
    forall k | 0 <= k < |b|
      ensures Clear(e, b[k])
    {
      assert b[k] in multiset(a);
    }
  }

  /** A stable sort is ordered exactly when no two edits reach into each other. */
  lemma {:induction false} SortOrderedIff<T>(edits: seq<Edit<T>>)
    ensures Ordered(StableSort(edits), 0) <==> AllClear(edits)
  {
    if edits != [] {
      var e, rest := edits[0], edits[1..];
      SortSorts(rest);
      SortOrderedIff(rest);
      InsertOrdered(e, StableSort(rest), 0);
      ClearOfSorted(e, rest);
      AllClearCons(edits);
    }
  }

  lemma AllClearCons<T>(edits: seq<Edit<T>>)
    requires edits != []
    ensures AllClear(edits) <==> ClearOf(edits[0], edits[1..]) && AllClear(edits[1..])
  {
    hide Clear;
    assert forall k :: 1 <= k < |edits| ==> edits[k] == edits[1..][k - 1];
  }

  // ---------------------------------------------------------------- the edits of placements

  function EditFor(p: Placement): Replacement {
    match p
    case AtEnd(index, added) => Edit(index, 0, added)
    case Located(start, pattern, replacement, _) => Edit(start, |pattern|, replacement)
  }

  lemma {:induction false} FlattenIsOneEach(ps: seq<Placement>)
    ensures |Flatten(ps, NormalizeToLf)| == |ps|
    ensures forall i :: 0 <= i < |ps| ==> Flatten(ps, NormalizeToLf)[i] == EditFor(ps[i])
  {
    if ps != [] {
      FlattenIsOneEach(ps[1..]);
      assert OwnEdits(ps[0], NormalizeToLf) == [EditFor(ps[0])];
    }
  }

  lemma {:induction false} NormalizedFlattened(lines: seq<string>, chunks: seq<UpdateFileChunk>, from: nat)
    ensures AllEdits(lines, chunks, from, NormalizeToLf) == (
      match Place(lines, chunks, from, NormalizeToLf)
      case Err(e) => Err(e)
      case Ok(ps) => Ok(Flatten(ps, NormalizeToLf)))
    decreases |chunks|
  {
    hide AfterContext, PlaceChunk;
    if chunks != [] && AfterContext(lines, chunks[0], from, NormalizeToLf).Ok? {
      var index := AfterContext(lines, chunks[0], from, NormalizeToLf).value;
      var placed := PlaceChunk(lines, chunks[0], index, NormalizeToLf);
      if placed.Ok? {
        NormalizedFlattened(lines, chunks[1..], placed.value.Next(index));
        var rest := Place(lines, chunks[1..], placed.value.Next(index), NormalizeToLf);
        assert rest.Ok? ==> ([placed.value] + rest.value)[1..] == rest.value;
        assert EditsOf(placed.value, NormalizeToLf) == Ok(OwnEdits(placed.value, NormalizeToLf));
        hide EditsOf, OwnEdits;
      }
    }
  }

  // ---------------------------------------------------------------- where blocks may lie

  function BlockEnd(p: Placement): nat {
    if p.Located? then p.start + |p.pattern| else 0
  }

  /** A block lies in the file, and behind `from` unless it is one for the end of the file. */
  predicate HeadOk(p: Placement, chunk: UpdateFileChunk, from: nat, lines: seq<string>) {
    match p
    case AtEnd(index, _) => index == InsertionIndex(lines, NormalizeToLf)
    case Located(start, pattern, _, _) =>
      && start + |pattern| <= |lines|
      && (from <= start || (chunk.isEndOfFile && pattern != [] && start + |pattern| == |lines|))
  }

  ghost predicate ShapeOk(ps: seq<Placement>, chunks: seq<UpdateFileChunk>, from: nat, lines: seq<string>)
    decreases |ps|
  {
    |ps| == |chunks| &&
    (ps != [] ==>
      && HeadOk(ps[0], chunks[0], from, lines)
      && ShapeOk(ps[1..], chunks[1..], Max(from, BlockEnd(ps[0])), lines))
  }

  function Max(a: nat, b: nat): nat {
    if a <= b then b else a
  }

  lemma {:induction false} ShapeEarlier(ps: seq<Placement>, chunks: seq<UpdateFileChunk>, from: nat, earlier: nat,
                                        lines: seq<string>)
    requires ShapeOk(ps, chunks, from, lines) && earlier <= from
    ensures ShapeOk(ps, chunks, earlier, lines)
    decreases |ps|
  {
    if ps != [] {
      ShapeEarlier(ps[1..], chunks[1..], Max(from, BlockEnd(ps[0])), Max(earlier, BlockEnd(ps[0])), lines);
    }
  }

  lemma HeadIsOk(lines: seq<string>, chunk: UpdateFileChunk, from: nat)
    requires from <= |lines|
    ensures var r := PlaceChunk(lines, chunk, from, NormalizeToLf);
      r.Ok? ==> HeadOk(r.value, chunk, from, lines) && Max(from, BlockEnd(r.value)) <= r.value.Next(from) <= |lines|
  {
    hide Seek;
    SeekInBounds(lines, chunk.oldLines, from, chunk.isEndOfFile, NormalizeToLf);
    SeekBehind(lines, chunk.oldLines, from, chunk.isEndOfFile);
    if chunk.oldLines != [] {
      SeekInBounds(lines, WithoutLast(chunk.oldLines), from, chunk.isEndOfFile, NormalizeToLf);
      SeekBehind(lines, WithoutLast(chunk.oldLines), from, chunk.isEndOfFile);
    }
  }

  lemma SeekBehind(lines: seq<string>, pattern: seq<string>, from: nat, eof: bool)
    ensures var r := Seek(lines, pattern, from, eof, NormalizeToLf);
      r.Some? ==> from <= r.value || (eof && pattern != [] && r.value + |pattern| == |lines|)
  {
    if eof && pattern != [] {
      EofMatchesAtEnd(lines, pattern, from, NormalizeToLf);
    }
  }

  lemma {:induction false} PlacedShape(lines: seq<string>, chunks: seq<UpdateFileChunk>, from: nat)
    requires from <= |lines|
    ensures var r := Place(lines, chunks, from, NormalizeToLf);
      r.Ok? ==> ShapeOk(r.value, chunks, from, lines)
    decreases |chunks|
  {
    hide AfterContext, PlaceChunk, HeadOk;
    if chunks != [] && AfterContext(lines, chunks[0], from, NormalizeToLf).Ok? {
      var index := AfterContext(lines, chunks[0], from, NormalizeToLf).value;
      AfterContextInBounds(lines, chunks[0], from, NormalizeToLf);
      var placed := PlaceChunk(lines, chunks[0], index, NormalizeToLf);
      HeadIsOk(lines, chunks[0], index);
      if placed.Ok? {
        var next := placed.value.Next(index);
        var rest := Place(lines, chunks[1..], next, NormalizeToLf);
        PlacedShape(lines, chunks[1..], next);
        assert Place(lines, chunks, from, NormalizeToLf) == if rest.Ok? then Ok([placed.value] + rest.value) else rest;
        hide Place;
        if rest.Ok? {
          ShapeEarlier(rest.value, chunks[1..], next, Max(index, BlockEnd(placed.value)), lines);
          ShapeCons(placed.value, rest.value, chunks, index, lines);
          ShapeEarlier([placed.value] + rest.value, chunks, index, from, lines);
        }
      }
    }
  }

  lemma ShapeCons(p: Placement, ps: seq<Placement>, chunks: seq<UpdateFileChunk>, from: nat, lines: seq<string>)
    requires chunks != [] && HeadOk(p, chunks[0], from, lines)
    requires ShapeOk(ps, chunks[1..], Max(from, BlockEnd(p)), lines)
    ensures ShapeOk([p] + ps, chunks, from, lines)
  {
    assert ([p] + ps)[1..] == ps;
  }

  lemma {:induction false} ShapeAt(ps: seq<Placement>, chunks: seq<UpdateFileChunk>, from: nat, lines: seq<string>,
                                   i: nat)
    requires ShapeOk(ps, chunks, from, lines) && i < |ps|
    ensures HeadOk(ps[i], chunks[i], from, lines)
    decreases |ps|
  {
    if i > 0 {
      ShapeAt(ps[1..], chunks[1..], Max(from, BlockEnd(ps[0])), lines, i - 1);
    }
  }

  /** Of two blocks, the later one lies behind the other or is one for the end of the file. */
  lemma {:induction false} ShapePair(ps: seq<Placement>, chunks: seq<UpdateFileChunk>, from: nat, lines: seq<string>,
                                     j: nat, i: nat)
    requires ShapeOk(ps, chunks, from, lines) && j < i < |ps|
    ensures HeadOk(ps[i], chunks[i], BlockEnd(ps[j]), lines)
    decreases |ps|
  {
    if j > 0 {
      ShapePair(ps[1..], chunks[1..], Max(from, BlockEnd(ps[0])), lines, j - 1, i - 1);
    } else {
      ShapeAt(ps[1..], chunks[1..], Max(from, BlockEnd(ps[0])), lines, i - 1);
    }
  }

  // ---------------------------------------------------------------- the exact condition

  /** An end-of-file block starts at or behind the end of a block before it, or that one is an
      empty block at the very end. */
  predicate Behind(block: Placement, endOfFile: Placement, n: nat)
    requires block.Located? && endOfFile.Located?
  {
    BlockEnd(block) <= endOfFile.start || block.start == n
  }

  ghost predicate EndBlocksBehind(ps: seq<Placement>, chunks: seq<UpdateFileChunk>, n: nat)
    requires |ps| == |chunks|
  {
    forall j, i :: 0 <= j < i < |ps| && ps[j].Located? && ps[i].Located? && chunks[i].isEndOfFile ==>
      Behind(ps[j], ps[i], n)
  }

  predicate CoversLast(p: Placement, n: nat) {
    p.Located? && p.start < n && BlockEnd(p) == n
  }

  /** A block that covers a blank last line covers nothing else, and comes after every insertion. */
  ghost predicate InsertionsClear(ps: seq<Placement>, lines: seq<string>) {
    EndsBlank(lines) ==>
      forall i, j :: 0 <= i < |ps| && 0 <= j < |ps| && ps[i].AtEnd? && CoversLast(ps[j], |lines|) ==>
        i < j && ps[j].start == |lines| - 1
  }

  lemma PairClear(ps: seq<Placement>, chunks: seq<UpdateFileChunk>, lines: seq<string>, j: nat, i: nat)
    requires ShapeOk(ps, chunks, 0, lines) && j < i < |ps|
    ensures ps[j].Located? && ps[i].Located? ==>
      (Clear(EditFor(ps[j]), EditFor(ps[i])) <==> (chunks[i].isEndOfFile ==> Behind(ps[j], ps[i], |lines|)))
    ensures ps[j].AtEnd? && ps[i].Located? ==>
      (Clear(EditFor(ps[j]), EditFor(ps[i])) <==>
        (EndsBlank(lines) && CoversLast(ps[i], |lines|) ==> ps[i].start == |lines| - 1))
    ensures ps[j].Located? && ps[i].AtEnd? ==>
      (Clear(EditFor(ps[j]), EditFor(ps[i])) <==> !(EndsBlank(lines) && CoversLast(ps[j], |lines|)))
    ensures ps[j].AtEnd? && ps[i].AtEnd? ==> Clear(EditFor(ps[j]), EditFor(ps[i]))
  {
    ShapePair(ps, chunks, 0, lines, j, i);
    ShapeAt(ps, chunks, 0, lines, j);
    ShapeAt(ps, chunks, 0, lines, i);
    hide ShapeOk;
  }

  lemma ClearImplies(ps: seq<Placement>, chunks: seq<UpdateFileChunk>, lines: seq<string>, edits: seq<Replacement>)
    requires ShapeOk(ps, chunks, 0, lines) && |edits| == |ps|
    requires forall i :: 0 <= i < |ps| ==> edits[i] == EditFor(ps[i])
    requires AllClear(edits)
    ensures EndBlocksBehind(ps, chunks, |lines|) && InsertionsClear(ps, lines)
  {
    hide EditFor, Clear, CoversLast, EndsBlank, Behind;
    forall j, i | 0 <= j < i < |ps| && ps[j].Located? && ps[i].Located? && chunks[i].isEndOfFile
      ensures Behind(ps[j], ps[i], |lines|)
    {
      PairClear(ps, chunks, lines, j, i);
      assert Clear(edits[j], edits[i]);
    }
    if EndsBlank(lines) {
      CoveringIsLocated(|lines|);
      forall j, i | 0 <= j < i < |ps| && ps[j].Located? && ps[i].AtEnd?
        ensures !CoversLast(ps[j], |lines|)
      {
        PairClear(ps, chunks, lines, j, i);
        assert Clear(edits[j], edits[i]);
      }
      forall i, j | 0 <= i < j < |ps| && ps[i].AtEnd? && ps[j].Located? && CoversLast(ps[j], |lines|)
        ensures ps[j].start == |lines| - 1
      {
        PairClear(ps, chunks, lines, i, j);
        assert Clear(edits[i], edits[j]);
      }
    }
  }

  lemma CoveringIsLocated(n: nat)
    ensures forall p: Placement :: CoversLast(p, n) ==> p.Located?
  {
  }

  lemma ConditionImplies(ps: seq<Placement>, chunks: seq<UpdateFileChunk>, lines: seq<string>, edits: seq<Replacement>)
    requires ShapeOk(ps, chunks, 0, lines) && |edits| == |ps|
    requires forall i :: 0 <= i < |ps| ==> edits[i] == EditFor(ps[i])
    requires EndBlocksBehind(ps, chunks, |lines|) && InsertionsClear(ps, lines)
    ensures AllClear(edits)
  {
    hide EditFor, Clear, CoversLast, EndsBlank, Behind;
    forall j, i | 0 <= j < i < |edits|
      ensures Clear(edits[j], edits[i])
    {
      PairClear(ps, chunks, lines, j, i);
    }
  }

  /** In NormalizeToLf the sorted edits start and end inside the file, and are ordered and disjoint
      if and only if every end-of-file block lies behind the blocks before it, and no insertion in
      front of a blank last line meets a block that covers that line. */
  lemma NormalizedOrderedIff(lines: seq<string>, chunks: seq<UpdateFileChunk>, ps: seq<Placement>)
    requires Place(lines, chunks, 0, NormalizeToLf) == Ok(ps)
    ensures |ps| == |chunks|
    ensures var r := ComputedEdits(lines, chunks, NormalizeToLf);
      && r == Ok(StableSort(Flatten(ps, NormalizeToLf)))
      && (forall i :: 0 <= i < |r.value| ==> r.value[i].End() <= |lines|)
      && (Ordered(r.value, 0) <==> EndBlocksBehind(ps, chunks, |lines|) && InsertionsClear(ps, lines))
  {
    hide Place, Flatten, StableSort, Clear, Behind, CoversLast, HeadOk, Ordered;
    var edits := Flatten(ps, NormalizeToLf);
    NormalizedFlattened(lines, chunks, 0);
    PlacedShape(lines, chunks, 0);
    FlattenIsOneEach(ps);
    SortOrderedIff(edits);
    EndsInside(ps, chunks, lines, edits);
    if AllClear(edits) {
      ClearImplies(ps, chunks, lines, edits);
    } else if EndBlocksBehind(ps, chunks, |lines|) && InsertionsClear(ps, lines) {
      ConditionImplies(ps, chunks, lines, edits);
    }
  }

  /** Then, and only for ordered edits is this promised, the reverse loop writes the splice. */
  lemma NormalizedWritesSplice(lines: seq<string>, chunks: seq<UpdateFileChunk>, ps: seq<Placement>)
    requires Place(lines, chunks, 0, NormalizeToLf) == Ok(ps) && |ps| == |chunks|
    requires EndBlocksBehind(ps, chunks, |lines|) && InsertionsClear(ps, lines)
    ensures var r := ComputedEdits(lines, chunks, NormalizeToLf);
      && r.Ok? && Ordered(r.value, 0) && Applicable(r.value, |lines|)
      && ApplyBackwards(lines, r.value) == Splice(lines, r.value, 0)
  {
    hide Place, Flatten, StableSort, ComputedEdits, EndBlocksBehind, InsertionsClear, ApplyBackwards, Splice, Ordered;
    NormalizedOrderedIff(lines, chunks, ps);
    var edits := ComputedEdits(lines, chunks, NormalizeToLf).value;
    OrderedWithin(edits, 0, |lines|);
    BackwardsIsSplice(lines, edits, 0);
    assert lines[..0] + Splice(lines, edits, 0) == Splice(lines, edits, 0);
  }

  lemma EndsInside(ps: seq<Placement>, chunks: seq<UpdateFileChunk>, lines: seq<string>, edits: seq<Replacement>)
    requires ShapeOk(ps, chunks, 0, lines) && |edits| == |ps|
    requires forall i :: 0 <= i < |ps| ==> edits[i] == EditFor(ps[i])
    ensures forall i :: 0 <= i < |StableSort(edits)| ==> StableSort(edits)[i].End() <= |lines|
  {
    hide ShapeOk, StableSort;
    forall i | 0 <= i < |edits|
      ensures edits[i].End() <= |lines|
    {
      ShapeAt(ps, chunks, 0, lines, i);
    }
    SortSorts(edits);
    var sorted := StableSort(edits);
    forall i | 0 <= i < |sorted|
      ensures sorted[i].End() <= |lines|
    {
      assert sorted[i] in multiset(edits);
    }
  }

  // ---------------------------------------------------------------- what is written otherwise

  lemma SeekLastLine(lines: seq<string>, from: nat)
    requires lines != []
    ensures Seek(lines, [lines[|lines| - 1]], from, true, NormalizeToLf) == Some(|lines| - 1)
  {
    assert MatchesAt(Exact, lines, [lines[|lines| - 1]], |lines| - 1);
  }

  lemma SeekWhole(lines: seq<string>)
    ensures Seek(lines, lines, 0, false, NormalizeToLf) == Some(0)
  {
    assert lines[0..0 + |lines|] == lines;
    SeekAtStart(lines, lines, 0);
  }

  lemma PlaceWhole(lines: seq<string>, whole: seq<string>)
    requires lines != []
    ensures PlaceChunk(lines, UpdateFileChunk(None, lines, whole, [], false), 0, NormalizeToLf)
            == Ok(Located(0, lines, whole, []))
  {
    SeekWhole(lines);
    hide Seek;
  }

  lemma PlaceLast(lines: seq<string>, last: seq<string>)
    requires lines != []
    ensures PlaceChunk(lines, UpdateFileChunk(None, [lines[|lines| - 1]], last, [], true), |lines|, NormalizeToLf)
            == Ok(Located(|lines| - 1, [lines[|lines| - 1]], last, []))
  {
    SeekLastLine(lines, |lines|);
    hide Seek;
  }

  lemma LocatedEdit(start: nat, pattern: seq<string>, replacement: seq<string>)
    ensures var p, e := Located(start, pattern, replacement, []), Edit(start, |pattern|, replacement);
      p.Next(0) == start + |pattern| == e.End() && EditFor(p) == e
  {
  }

  lemma EndBlockEdits(lines: seq<string>, whole: seq<string>, last: seq<string>)
    requires lines != []
    ensures var n := |lines|;
      ComputedEdits(lines, [UpdateFileChunk(None, lines, whole, [], false),
                            UpdateFileChunk(None, [lines[n - 1]], last, [], true)], NormalizeToLf)
      == Ok([Edit(0, n, whole), Edit(n - 1, 1, last)])
  {
    var n := |lines|;
    var first, second := UpdateFileChunk(None, lines, whole, [], false),
      UpdateFileChunk(None, [lines[n - 1]], last, [], true);
    hide *;
    PlaceWhole(lines, whole);
    PlaceLast(lines, last);
    LocatedEdit(0, lines, whole);
    LocatedEdit(n - 1, [lines[n - 1]], last);
    TwoChunkEdits(lines, first, second, Located(0, lines, whole, []), Located(n - 1, [lines[n - 1]], last, []));
    TwoEdits(Edit(0, n, whole), Edit(n - 1, 1, last));
  }

  lemma EndBlockWrites(lines: seq<string>, whole: seq<string>, last: seq<string>)
    requires lines != []
    ensures var n := |lines|;
      var edits := [Edit(0, n, whole), Edit(n - 1, 1, last)];
      && !Ordered(edits, 0) && Applicable(edits, n)
      && ApplyBackwards(lines, edits) == whole + if last == [] then [] else last[1..]
  {
    var n := |lines|;
    hide Ordered, ApplyBackwards, Applicable, StableSort, ApplyOne;
    TwoEdits(Edit(0, n, whole), Edit(n - 1, 1, last));
    TwoApplied(lines, Edit(0, n, whole), Edit(n - 1, 1, last));
    EndBlockText(lines, whole, last);
  }

  /** On any non-empty file, a chunk for all of it and an end-of-file chunk for its last line
      overlap: the second search starts at the end of the file and not where the first block ended.
      The reverse loop then loses the first line of the second replacement. */
  lemma EndBlockOverlap(lines: seq<string>, whole: seq<string>, last: seq<string>)
    requires lines != []
    ensures var n := |lines|;
      var chunks := [UpdateFileChunk(None, lines, whole, [], false),
                     UpdateFileChunk(None, [lines[n - 1]], last, [], true)];
      var edits := [Edit(0, n, whole), Edit(n - 1, 1, last)];
      && ComputedEdits(lines, chunks, NormalizeToLf) == Ok(edits) && !Ordered(edits, 0) && Applicable(edits, n)
      && ApplyBackwards(lines, edits) == whole + if last == [] then [] else last[1..]
  {
    hide ComputedEdits, Ordered, ApplyBackwards, Applicable;
    EndBlockEdits(lines, whole, last);
    EndBlockWrites(lines, whole, last);
  }

  lemma EndBlockText(lines: seq<string>, whole: seq<string>, last: seq<string>)
    requires lines != []
    ensures var n := |lines|;
      ApplyOne(ApplyOne(lines, Edit(n - 1, 1, last)), Edit(0, n, whole)) == whole + if last == [] then [] else last[1..]
  {
    var n := |lines|;
    assert ApplyOne(lines, Edit(n - 1, 1, last)) == lines[..n - 1] + last;
    if last != [] {
      assert (lines[..n - 1] + last)[n..] == last[1..];
    }
  }

  lemma TwoChunkEdits(lines: seq<string>, first: UpdateFileChunk, second: UpdateFileChunk, p: Placement, q: Placement)
    requires first.changeContext == None && second.changeContext == None
    requires PlaceChunk(lines, first, 0, NormalizeToLf) == Ok(p)
    requires PlaceChunk(lines, second, p.Next(0), NormalizeToLf) == Ok(q)
    ensures ComputedEdits(lines, [first, second], NormalizeToLf) == Ok(StableSort([EditFor(p)] + ([EditFor(q)] + [])))
  {
    hide PlaceChunk, StableSort;
    var chunks := [first, second];
    assert chunks[1..] == [second] && [second][1..] == [];
    assert AllEdits(lines, [second], p.Next(0), NormalizeToLf) == Ok([EditFor(q)] + []);
    assert AllEdits(lines, chunks, 0, NormalizeToLf) == Ok([EditFor(p)] + ([EditFor(q)] + []));
    hide AllEdits;
  }

  /** On any file whose last line is blank, a chunk for all of it and an insertion overlap: the
      insertion goes in front of the blank line. The reverse loop then loses the first inserted
      line and leaves the blank one. */
  lemma InsertionOverlap(lines: seq<string>, whole: seq<string>, added: seq<string>)
    requires EndsBlank(lines)
    ensures var n := |lines|;
      var chunks := [UpdateFileChunk(None, lines, whole, [], false), UpdateFileChunk(None, [], added, [], false)];
      var edits := [Edit(0, n, whole), Edit(n - 1, 0, added)];
      && ComputedEdits(lines, chunks, NormalizeToLf) == Ok(edits) && !Ordered(edits, 0) && Applicable(edits, n)
      && ApplyBackwards(lines, edits) == whole + (added + [""])[1..]
  {
    var n := |lines|;
    var first, second := UpdateFileChunk(None, lines, whole, [], false), UpdateFileChunk(None, [], added, [], false);
    PlaceWhole(lines, whole);
    assert PlaceChunk(lines, second, n, NormalizeToLf) == Ok(AtEnd(n - 1, added));
    hide PlaceChunk, ComputedEdits, Ordered, ApplyBackwards, Applicable, StableSort, ApplyOne;
    TwoChunkEdits(lines, first, second, Located(0, lines, whole, []), AtEnd(n - 1, added));
    TwoEdits(Edit(0, n, whole), Edit(n - 1, 0, added));
    TwoApplied(lines, Edit(0, n, whole), Edit(n - 1, 0, added));
    InsertionText(lines, whole, added);
  }

  lemma InsertionText(lines: seq<string>, whole: seq<string>, added: seq<string>)
    requires EndsBlank(lines)
    ensures var n := |lines|;
      ApplyOne(ApplyOne(lines, Edit(n - 1, 0, added)), Edit(0, n, whole)) == whole + (added + [""])[1..]
  {
    var n := |lines|;
    var inserted := lines[..n - 1] + (added + [""]);
    assert lines[n - 1..] == [""];
    assert ApplyOne(lines, Edit(n - 1, 0, added)) == lines[..n - 1] + added + [""];
    Associative(lines[..n - 1], added, [""]);
    hide EndsBlank;
    ReplacedFront(inserted, n, whole);
    DropOneMore(lines[..n - 1], added + [""]);
  }

  lemma ReplacedFront(lines: seq<string>, n: nat, whole: seq<string>)
    requires n <= |lines|
    ensures ApplyOne(lines, Edit(0, n, whole)) == whole + lines[n..]
  {
    assert lines[..0] + whole == whole;
  }

  lemma DropOneMore<T>(front: seq<T>, back: seq<T>)
    requires back != []
    ensures (front + back)[|front| + 1..] == back[1..]
  {
  }

  lemma TwoEdits<T>(a: Edit<T>, b: Edit<T>)
    requires a.start <= b.start < a.End()
    ensures StableSort([a] + ([b] + [])) == [a, b] && !Ordered([a, b], 0)
  {
    assert [a] + ([b] + []) == [a, b] && [a, b][1..] == [b] && [b][1..] == [];
    assert StableSort([b]) == [b];
  }

  lemma OneApplied<T>(lines: seq<T>, b: Edit<T>)
    requires b.start <= |lines|
    ensures Applicable([b], |lines|) && ApplyBackwards(lines, [b]) == ApplyOne(lines, b)
  {
    assert [b][1..] == [];
    assert ApplyBackwards(lines, []) == lines;
    hide ApplyOne;
  }

  lemma TwoApplied<T>(lines: seq<T>, a: Edit<T>, b: Edit<T>)
    requires a.start <= b.start <= |lines|
    ensures Applicable([a, b], |lines|)
    ensures a.start <= |ApplyOne(lines, b)| && ApplyBackwards(lines, [a, b]) == ApplyOne(ApplyOne(lines, b), a)
  {
    OneApplied(lines, b);
    assert [a, b][1..] == [b];
    assert ApplyBackwards(lines, [a, b]) == ApplyOne(ApplyBackwards(lines, [b]), a);
  }
}
