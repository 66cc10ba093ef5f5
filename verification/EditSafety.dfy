/** The computed edits never overlap, leave the file or underflow. */
module EditSafety {
  import opened Text
  import opened TextFile
  import opened LineSearch
  import opened Patch
  import opened FileUpdate

  /** The chunks' context pairs are as the parser builds them. */
  ghost predicate ChunksOk(chunks: seq<UpdateFileChunk>) {
    forall i :: 0 <= i < |chunks| ==> chunks[i].ContextOk()
  }

  /** Chunks that cannot overlap: in NormalizeToLf an end-of-file search may look before the last
      match, and an insertion goes in front of a blank last line. */
  predicate Tame(lines: seq<string>, chunk: UpdateFileChunk, mode: UpdateMode) {
    mode == PreserveLineEndings || (!chunk.isEndOfFile && (chunk.oldLines != [] || !EndsBlank(lines)))
  }

  ghost predicate AllTame(lines: seq<string>, chunks: seq<UpdateFileChunk>, mode: UpdateMode) {
    forall i :: 0 <= i < |chunks| ==> Tame(lines, chunks[i], mode)
  }

  // ---------------------------------------------------------------- placements

  function Place(lines: seq<string>, chunks: seq<UpdateFileChunk>, from: nat, mode: UpdateMode)
    : Result<seq<Placement>, UpdateError>
    decreases |chunks|
  {
    if chunks == [] then Ok([])
    else
      var index :- AfterContext(lines, chunks[0], from, mode);
      var placement :- PlaceChunk(lines, chunks[0], index, mode);
      var rest :- Place(lines, chunks[1..], placement.Next(index), mode);
      Ok([placement] + rest)
  }

  /** Blocks lie in file order from `from` on, within the `n` lines of the file. */
  ghost predicate InFileOrder(ps: seq<Placement>, from: nat, n: nat)
    decreases |ps|
  {
    ps == [] ||
    match ps[0]
    case AtEnd(index, _) => index == n && InFileOrder(ps[1..], from, n)
    case Located(start, pattern, _, context) =>
      from <= start && start + |pattern| <= n && Increasing(context, 0, 0) && InFileOrder(ps[1..], start + |pattern|, n)
  }

  lemma {:induction false} InFileOrderEarlier(ps: seq<Placement>, from: nat, earlier: nat, n: nat)
    requires InFileOrder(ps, from, n) && earlier <= from
    ensures InFileOrder(ps, earlier, n)
    decreases |ps|
  {
    if ps != [] && ps[0].AtEnd? {
      InFileOrderEarlier(ps[1..], from, earlier, n);
    }
  }

  lemma InFileOrderCons(p: Placement, ps: seq<Placement>, from: nat, index: nat, n: nat)
    requires from <= index && InFileOrder(ps, p.Next(index), n)
    requires p.AtEnd? ==> p.index == n
    requires p.Located? ==> index <= p.start && p.start + |p.pattern| <= n && Increasing(p.context, 0, 0)
    ensures InFileOrder([p] + ps, from, n)
  {
    assert ([p] + ps)[1..] == ps;
    if p.AtEnd? {
      InFileOrderEarlier(ps, index, from, n);
    }
  }

  lemma AfterContextInBounds(lines: seq<string>, chunk: UpdateFileChunk, from: nat, mode: UpdateMode)
    requires from <= |lines|
    ensures var r := AfterContext(lines, chunk, from, mode);
      r.Ok? ==> from <= r.value <= |lines|
  {
    if chunk.changeContext.Some? {
      SeekInBounds(lines, [chunk.changeContext.value], from, false, mode);
    }
  }

  lemma PlaceChunkInBounds(lines: seq<string>, chunk: UpdateFileChunk, from: nat, mode: UpdateMode)
    requires from <= |lines|
    ensures var r := PlaceChunk(lines, chunk, from, mode);
      && (r.Ok? && r.value.AtEnd? ==>
            r.value.index <= |lines| && (Tame(lines, chunk, mode) ==> r.value.index == |lines|))
      && (r.Ok? && r.value.Located? ==>
        && r.value.start + |r.value.pattern| <= |lines| && r.value.context == chunk.contextLineIndices
        && (Tame(lines, chunk, mode) ==> from <= r.value.start))
  {
    hide Seek;
    SeekInBounds(lines, chunk.oldLines, from, chunk.isEndOfFile, mode);
    if chunk.oldLines != [] {
      SeekInBounds(lines, WithoutLast(chunk.oldLines), from, chunk.isEndOfFile, mode);
    }
  }

  lemma {:induction false} PlacedInFileOrder(lines: seq<string>, chunks: seq<UpdateFileChunk>, from: nat,
                                             mode: UpdateMode)
    requires ChunksOk(chunks) && AllTame(lines, chunks, mode) && from <= |lines|
    ensures var r := Place(lines, chunks, from, mode);
      r.Ok? ==> InFileOrder(r.value, from, |lines|) && |r.value| == |chunks|
    decreases |chunks|
  {
    var r := Place(lines, chunks, from, mode);
    if chunks != [] && r.Ok? {
      var index := AfterContext(lines, chunks[0], from, mode).value;
      var p := PlaceChunk(lines, chunks[0], index, mode).value;
      assert chunks[0].ContextOk() && Tame(lines, chunks[0], mode);
      assert r.value == [p] + Place(lines, chunks[1..], p.Next(index), mode).value;
      hide AfterContext, PlaceChunk, Tame, Increasing, UpdateFileChunk.ContextOk, InFileOrder, Place;
      AfterContextInBounds(lines, chunks[0], from, mode);
      PlaceChunkInBounds(lines, chunks[0], index, mode);
      PlacedInFileOrder(lines, chunks[1..], p.Next(index), mode);
      InFileOrderCons(p, Place(lines, chunks[1..], p.Next(index), mode).value, from, index, |lines|);
    }
  }

  // ---------------------------------------------------------------- their edits

  /** Edits in order and disjoint, between `lo` and `hi`. */
  predicate Within<T>(edits: seq<Edit<T>>, lo: nat, hi: nat)
    decreases |edits|
  {
    if edits == [] then lo <= hi
    else lo <= edits[0].start && Within(edits[1..], edits[0].End(), hi)
  }

  lemma {:induction false} WithinBounds<T>(edits: seq<Edit<T>>, lo: nat, hi: nat)
    requires Within(edits, lo, hi)
    ensures lo <= hi && Ordered(edits, lo)
    ensures forall i :: 0 <= i < |edits| ==> lo <= edits[i].start && edits[i].End() <= hi
    decreases |edits|
  {
    if edits != [] {
      WithinBounds(edits[1..], edits[0].End(), hi);
    }
  }

  lemma {:induction false} WithinConcat<T>(a: seq<Edit<T>>, b: seq<Edit<T>>, lo: nat, mid: nat, hi: nat)
    requires Within(a, lo, mid) && Within(b, mid, hi)
    ensures Within(a + b, lo, hi)
    decreases |a|
  {
    if a == [] {
      assert a + b == b;
      WithinWiden(b, mid, lo, hi);
    } else {
      assert (a + b)[1..] == a[1..] + b;
      WithinConcat(a[1..], b, a[0].End(), mid, hi);
    }
  }

  lemma WithinWiden<T>(edits: seq<Edit<T>>, lo: nat, lower: nat, hi: nat)
    requires Within(edits, lo, hi) && lower <= lo
    ensures Within(edits, lower, hi)
  {
  }

  lemma GapWithin(start: nat, replacement: seq<string>, oldStart: nat, newStart: nat, context: (nat, nat))
    requires oldStart <= context.0 && newStart <= context.1 < |replacement|
    ensures Within(GapEdit(start, replacement, oldStart, newStart, context), start + oldStart, start + context.0)
  {
  }

  lemma GapEditsUnfold(start: nat, pattern: seq<string>, replacement: seq<string>, context: seq<(nat, nat)>,
                       oldStart: nat, newStart: nat)
    requires oldStart <= |pattern| && newStart <= |replacement|
    requires context != [] && oldStart <= context[0].0 < |pattern| && newStart <= context[0].1 < |replacement|
    ensures var rest := GapEdits(start, pattern, replacement, context[1..], context[0].0 + 1, context[0].1 + 1);
      rest.Ok? ==> GapEdits(start, pattern, replacement, context, oldStart, newStart)
                   == Ok(GapEdit(start, replacement, oldStart, newStart, context[0]) + rest.value)
  {
    hide GapEdit;
  }

  lemma GapEditsLast(start: nat, pattern: seq<string>, replacement: seq<string>, context: seq<(nat, nat)>,
                     oldStart: nat, newStart: nat)
    requires oldStart <= |pattern| && newStart <= |replacement|
    requires context == [] || context[0].0 >= |pattern| || context[0].1 >= |replacement|
    ensures var r := GapEdits(start, pattern, replacement, context, oldStart, newStart);
      r.Ok? && Within(r.value, start + oldStart, start + |pattern|)
  {
  }

  /** The gap arithmetic of a parsed chunk cannot fail, and stays inside its block. */
  lemma {:induction false} GapEditsWithin(start: nat, pattern: seq<string>, replacement: seq<string>,
                                          context: seq<(nat, nat)>, oldStart: nat, newStart: nat)
    requires Increasing(context, oldStart, newStart)
    requires oldStart <= |pattern| && newStart <= |replacement|
    ensures var r := GapEdits(start, pattern, replacement, context, oldStart, newStart);
      r.Ok? && Within(r.value, start + oldStart, start + |pattern|)
    decreases |context|
  {
    hide GapEdits, GapEdit, Within;
    if context != [] && context[0].0 < |pattern| && context[0].1 < |replacement| {
      var (oldIndex, newIndex) := context[0];
      GapEditsWithin(start, pattern, replacement, context[1..], oldIndex + 1, newIndex + 1);
      var gap := GapEdit(start, replacement, oldStart, newStart, context[0]);
      var rest := GapEdits(start, pattern, replacement, context[1..], oldIndex + 1, newIndex + 1).value;
      hide Increasing;
      GapEditsUnfold(start, pattern, replacement, context, oldStart, newStart);
      GapWithin(start, replacement, oldStart, newStart, context[0]);
      WithinWiden(rest, start + oldIndex + 1, start + oldIndex, start + |pattern|);
      WithinConcat(gap, rest, start + oldStart, start + oldIndex, start + |pattern|);
    } else {
      GapEditsLast(start, pattern, replacement, context, oldStart, newStart);
    }
  }

  function OwnEdits(p: Placement, mode: UpdateMode): seq<Replacement> {
    var edits := EditsOf(p, mode);
    if edits.Ok? then edits.value else []
  }

  function Flatten(ps: seq<Placement>, mode: UpdateMode): seq<Replacement> {
    if ps == [] then [] else OwnEdits(ps[0], mode) + Flatten(ps[1..], mode)
  }

  lemma OwnEditsWithin(p: Placement, mode: UpdateMode)
    requires p.Located? ==> Increasing(p.context, 0, 0)
    ensures EditsOf(p, mode) == Ok(OwnEdits(p, mode))
    ensures p.Located? ==> Within(OwnEdits(p, mode), p.start, p.start + |p.pattern|)
  {
    if p.Located? {
      GapEditsWithin(p.start, p.pattern, p.replacement, p.context, 0, 0);
    }
  }

  /** The computed edits are those of the placements, and an underflow is impossible. */
  lemma {:induction false} EditsAreFlattened(lines: seq<string>, chunks: seq<UpdateFileChunk>, from: nat,
                                             mode: UpdateMode)
    requires ChunksOk(chunks)
    ensures AllEdits(lines, chunks, from, mode) == (
      match Place(lines, chunks, from, mode)
      case Err(e) => Err(e)
      case Ok(ps) => Ok(Flatten(ps, mode)))
    ensures AllEdits(lines, chunks, from, mode) != Err(Underflow)
    decreases |chunks|
  {
    if chunks != [] && AfterContext(lines, chunks[0], from, mode).Ok? {
      var index := AfterContext(lines, chunks[0], from, mode).value;
      var placed := PlaceChunk(lines, chunks[0], index, mode);
      assert chunks[0].ContextOk();
      assert placed.Ok? && placed.value.Located? ==> placed.value.context == chunks[0].contextLineIndices;
      assert AfterContext(lines, chunks[0], from, mode) != Err(Underflow) && placed != Err(Underflow);
      hide AfterContext, PlaceChunk, EditsOf, Increasing;
      if placed.Ok? {
        OwnEditsWithin(placed.value, mode);
        EditsAreFlattened(lines, chunks[1..], placed.value.Next(index), mode);
        var rest := Place(lines, chunks[1..], placed.value.Next(index), mode);
        assert rest.Ok? ==> ([placed.value] + rest.value)[1..] == rest.value;
      }
    }
  }

  // ---------------------------------------------------------------- sorting them

  function Before<T>(edits: seq<Edit<T>>, n: nat): seq<Edit<T>> {
    if edits == [] then []
    else (if edits[0].start < n then [edits[0]] else []) + Before(edits[1..], n)
  }

  lemma {:induction false} BeforeConcat<T>(a: seq<Edit<T>>, b: seq<Edit<T>>, n: nat)
    ensures Before(a + b, n) == Before(a, n) + Before(b, n)
  {
    if a == [] {
      assert a + b == b && [] + Before(b, n) == Before(b, n);
    } else {
      assert (a + b)[1..] == a[1..] + b;
      var first := if a[0].start < n then [a[0]] else [];
      assert Before(a + b, n) == first + Before(a[1..] + b, n);
      assert Before(a, n) == first + Before(a[1..], n);
      hide Before;
      BeforeConcat(a[1..], b, n);
      Associative(first, Before(a[1..], n), Before(b, n));
    }
  }

  lemma {:induction false} WithStartConcat<T>(a: seq<Edit<T>>, b: seq<Edit<T>>, n: nat)
    ensures WithStart(a + b, n) == WithStart(a, n) + WithStart(b, n)
  {
    if a == [] {
      assert a + b == b && [] + WithStart(b, n) == WithStart(b, n);
    } else {
      assert (a + b)[1..] == a[1..] + b;
      var first := if a[0].start == n then [a[0]] else [];
      assert WithStart(a + b, n) == first + WithStart(a[1..] + b, n);
      assert WithStart(a, n) == first + WithStart(a[1..], n);
      hide WithStart;
      WithStartConcat(a[1..], b, n);
      Associative(first, WithStart(a[1..], n), WithStart(b, n));
    }
  }

  lemma {:induction false} BeforeWithin<T>(edits: seq<Edit<T>>, n: nat, lo: nat, hi: nat)
    requires Within(edits, lo, hi)
    ensures Within(Before(edits, n), lo, hi)
    decreases |edits|
  {
    if edits != [] {
      BeforeWithin(edits[1..], n, edits[0].End(), hi);
      if edits[0].start >= n {
        WithinWiden(Before(edits[1..], n), edits[0].End(), lo, hi);
        assert Before(edits, n) == Before(edits[1..], n);
      } else {
        assert Before(edits, n)[1..] == Before(edits[1..], n);
      }
    }
  }

  predicate EndBy<T>(edits: seq<Edit<T>>, n: nat) {
    forall i :: 0 <= i < |edits| ==> edits[i].End() <= n
  }

  lemma {:induction false} BeforeStarts<T>(edits: seq<Edit<T>>, n: nat)
    ensures forall i :: 0 <= i < |Before(edits, n)| ==> Before(edits, n)[i].start < n
    ensures forall i :: 0 <= i < |WithStart(edits, n)| ==> WithStart(edits, n)[i].start == n
    ensures EndBy(edits, n) ==> EndBy(WithStart(edits, n), n)
  {
    if edits != [] {
      BeforeStarts(edits[1..], n);
    }
  }

  lemma {:induction false} InsertBetween<T>(e: Edit<T>, low: seq<Edit<T>>, high: seq<Edit<T>>)
    requires forall i :: 0 <= i < |low| ==> low[i].start < e.start
    requires forall i :: 0 <= i < |high| ==> e.start <= high[i].start
    ensures InsertByStart(e, low + high) == low + [e] + high
  {
    var all := low + high;
    if low == [] {
      assert all == high && low + [e] == [e];
    } else {
      assert all[0] == low[0] && all[1..] == low[1..] + high;
      assert InsertByStart(e, all) == [low[0]] + InsertByStart(e, low[1..] + high);
      hide InsertByStart;
      InsertBetween(e, low[1..], high);
      Associative([low[0]], low[1..] + [e], high);
      Associative([low[0]], low[1..], [e]);
      assert [low[0]] + low[1..] == low;
    }
  }

  lemma InsertLow<T>(e: Edit<T>, low: seq<Edit<T>>, high: seq<Edit<T>>, n: nat)
    requires e.End() <= n && Within(low, e.End(), n)
    requires forall i :: 0 <= i < |high| ==> high[i].start == n
    ensures InsertByStart(e, low + high) == [e] + low + high
  {
    assert low != [] ==> (low + high)[0] == low[0];
    assert low == [] && high != [] ==> (low + high)[0] == high[0];
    assert InsertByStart(e, low + high) == [e] + (low + high);
    hide Within, InsertByStart;
    Associative([e], low, high);
  }

  /** Edits at the very end move behind all others, keeping their order; no others move. */
  lemma {:induction false} SortMovesToEnd<T>(edits: seq<Edit<T>>, n: nat, lo: nat)
    requires EndBy(edits, n) && Within(Before(edits, n), lo, n)
    ensures StableSort(edits) == Before(edits, n) + WithStart(edits, n)
    decreases |edits|
  {
    if edits != [] {
      var e, low, high := edits[0], Before(edits[1..], n), WithStart(edits[1..], n);
      assert e.End() <= n && EndBy(edits[1..], n);
      BeforeStarts(edits[1..], n);
      if e.start < n {
        assert Before(edits, n) == [e] + low && WithStart(edits, n) == high;
        hide Before, WithStart, InsertByStart;
        assert Within(low, e.End(), n) by { assert ([e] + low)[1..] == low; }
        SortMovesToEnd(edits[1..], n, e.End());
        InsertLow(e, low, high, n);
      } else {
        assert Before(edits, n) == low && WithStart(edits, n) == [e] + high;
        hide Before, WithStart, InsertByStart;
        SortMovesToEnd(edits[1..], n, lo);
        InsertBetween(e, low, high);
        Associative(low, [e], high);
      }
    }
  }

  lemma {:induction false} FlattenEndBy(ps: seq<Placement>, from: nat, n: nat, mode: UpdateMode)
    requires InFileOrder(ps, from, n)
    ensures EndBy(Flatten(ps, mode), n)
    decreases |ps|
  {
    if ps != [] {
      var p := ps[0];
      FlattenEndBy(ps[1..], p.Next(from), n, mode);
      OwnEditsWithin(p, mode);
      hide Increasing, GapEdits, InFileOrder, Flatten;
      if p.Located? {
        WithinBounds(OwnEdits(p, mode), p.start, p.start + |p.pattern|);
      }
    }
  }

  lemma {:induction false} FlattenWithin(ps: seq<Placement>, from: nat, n: nat, mode: UpdateMode)
    requires InFileOrder(ps, from, n) && from <= n
    ensures Within(Before(Flatten(ps, mode), n), from, n)
    decreases |ps|
  {
    if ps != [] {
      var p, own, rest := ps[0], OwnEdits(ps[0], mode), Flatten(ps[1..], mode);
      FlattenWithin(ps[1..], p.Next(from), n, mode);
      OwnEditsWithin(p, mode);
      BeforeConcat(own, rest, n);
      assert Flatten(ps, mode) == own + rest;
      assert p.AtEnd? ==> own == [Edit(n, 0, p.added)] && Before(own, n) == [];
      hide Increasing, GapEdits, InFileOrder, Flatten, OwnEdits, Before, EditsOf, Within;
      if p.AtEnd? {
        assert [] + Before(rest, n) == Before(rest, n);
      } else {
        var end := p.start + |p.pattern|;
        WithinBounds(own, p.start, end);
        BeforeWithin(own, n, p.start, end);
        WithinConcat(Before(own, n), Before(rest, n), p.start, end, n);
        WithinWiden(Before(own + rest, n), p.start, from, n);
      }
    }
  }

  lemma {:induction false} AtEndWithin<T>(edits: seq<Edit<T>>, n: nat)
    requires EndBy(edits, n)
    requires forall i :: 0 <= i < |edits| ==> edits[i].start == n
    ensures Within(edits, n, n)
  {
    if edits != [] {
      assert edits[0].End() <= n;
      AtEndWithin(edits[1..], n);
    }
  }

  lemma SortedFlattenWithin(ps: seq<Placement>, n: nat, mode: UpdateMode)
    requires InFileOrder(ps, 0, n)
    ensures var edits := Flatten(ps, mode);
      && StableSort(edits) == Before(edits, n) + WithStart(edits, n)
      && Within(StableSort(edits), 0, n)
  {
    var edits := Flatten(ps, mode);
    FlattenEndBy(ps, 0, n, mode);
    FlattenWithin(ps, 0, n, mode);
    SortMovesToEnd(edits, n, 0);
    BeforeStarts(edits, n);
    AtEndWithin(WithStart(edits, n), n);
    WithinConcat(Before(edits, n), WithStart(edits, n), 0, n, n);
  }

  /** For parsed chunks the sorted edits are ordered, disjoint and inside the file, and no
      index subtraction underflows: in PreserveLineEndings for all chunk lists, in NormalizeToLf
      for those without end-of-file chunks, and without insertions where the last line is blank. */
  lemma SafeEdits(lines: seq<string>, chunks: seq<UpdateFileChunk>, mode: UpdateMode)
    requires ChunksOk(chunks) && AllTame(lines, chunks, mode)
    ensures var r := ComputedEdits(lines, chunks, mode);
      && r != Err(Underflow)
      && (r.Ok? ==> Ordered(r.value, 0) && forall i :: 0 <= i < |r.value| ==> r.value[i].End() <= |lines|)
  {
    hide StableSort;
    EditsAreFlattened(lines, chunks, 0, mode);
    PlacedInFileOrder(lines, chunks, 0, mode);
    var placed := Place(lines, chunks, 0, mode);
    if placed.Ok? {
      SortedFlattenWithin(placed.value, |lines|, mode);
      WithinBounds(StableSort(Flatten(placed.value, mode)), 0, |lines|);
    }
  }

  /** In NormalizeToLf every edit at least starts inside the file, whatever the chunks. */
  lemma {:induction false} NormalizedStarts(lines: seq<string>, chunks: seq<UpdateFileChunk>, from: nat)
    requires from <= |lines|
    ensures var r := AllEdits(lines, chunks, from, NormalizeToLf);
      && r != Err(Underflow)
      && (r.Ok? ==> forall i :: 0 <= i < |r.value| ==> r.value[i].start <= |lines|)
    decreases |chunks|
  {
    if chunks != [] && AfterContext(lines, chunks[0], from, NormalizeToLf).Ok? {
      var index := AfterContext(lines, chunks[0], from, NormalizeToLf).value;
      var placed := PlaceChunk(lines, chunks[0], index, NormalizeToLf);
      AfterContextInBounds(lines, chunks[0], from, NormalizeToLf);
      PlaceChunkInBounds(lines, chunks[0], index, NormalizeToLf);
      if placed.Ok? {
        NormalizedStarts(lines, chunks[1..], placed.value.Next(index));
      }
    }
  }
}
