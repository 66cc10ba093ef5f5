/** What a PreserveLineEndings update means, line by line: every located block is replaced by
    the chunk's new lines, in which the context lines are the file's own. */
module UpdateMeaning {
  import opened Text
  import opened TextFile
  import opened LineSearch
  import opened Patch
  import opened FileUpdate
  import opened EditSafety

  /** The block line that new line `j` keeps, if `j` is a context line. */
  function KeptFrom(context: seq<(nat, nat)>, oldLen: nat, j: nat): (r: Option<nat>)
    ensures r.Some? ==> r.value < oldLen
  {
    if context == [] then None
    else if context[0].1 == j && context[0].0 < oldLen then Some(context[0].0)
    else KeptFrom(context[1..], oldLen, j)
  }

  predicate InFile(p: Placement, n: nat) {
    p.Located? && p.start + |p.pattern| <= n && Increasing(p.context, 0, 0)
  }

  function TargetLine(source: seq<SourceLine>, p: Placement, ending: LineEnding, j: nat): SourceLine
    requires InFile(p, |source|) && j < |p.replacement|
  {
    var kept := KeptFrom(p.context, |p.pattern|, j);
    if kept.Some? then source[p.start + kept.value] else SourceLine(p.replacement[j], Some(ending))
  }

  /** The new lines of a block: kept lines with their own text and ending, added lines with the
      preferred ending. */
  function Target(source: seq<SourceLine>, p: Placement, ending: LineEnding): (target: seq<SourceLine>)
    requires InFile(p, |source|)
    ensures |target| == |p.replacement|
    ensures forall j :: 0 <= j < |target| ==> target[j] == TargetLine(source, p, ending, j)
  {
    seq(|p.replacement|, j requires 0 <= j < |p.replacement| => TargetLine(source, p, ending, j))
  }

  /** The old and new positions behind the last context pair that takes effect. */
  function GapsEnd(oldLen: nat, newLen: nat, context: seq<(nat, nat)>, oldStart: nat, newStart: nat): (r: (nat, nat))
    requires oldStart <= oldLen && newStart <= newLen
    ensures r.0 <= oldLen && r.1 <= newLen
    decreases |context|
  {
    if context == [] || context[0].0 >= oldLen || context[0].1 >= newLen then (oldStart, newStart)
    else GapsEnd(oldLen, newLen, context[1..], context[0].0 + 1, context[0].1 + 1)
  }

  /** Lines that a chunk adds behind the file's last line queue up with the pure insertions;
      the rest of its new lines, up to here, stand in place of its block. */
  function Cut(p: Placement, n: nat): (cut: nat)
    requires p.Located?
    ensures cut <= |p.replacement|
  {
    var (oldEnd, newEnd) := GapsEnd(|p.pattern|, |p.replacement|, p.context, 0, 0);
    if oldEnd == |p.pattern| && p.start + |p.pattern| == n then newEnd else |p.replacement|
  }

  function Bodies(source: seq<SourceLine>, ps: seq<Placement>, ending: LineEnding): seq<Edit<SourceLine>>
    requires forall i :: 0 <= i < |ps| && ps[i].Located? ==> InFile(ps[i], |source|)
  {
    if ps == [] then []
    else
      (if ps[0].AtEnd? then []
       else [Edit(ps[0].start, |ps[0].pattern|, Target(source, ps[0], ending)[..Cut(ps[0], |source|)])])
      + Bodies(source, ps[1..], ending)
  }

  function Tails(source: seq<SourceLine>, ps: seq<Placement>, ending: LineEnding): seq<SourceLine>
    requires forall i :: 0 <= i < |ps| && ps[i].Located? ==> InFile(ps[i], |source|)
  {
    if ps == [] then []
    else
      (if ps[0].AtEnd? then Inserted(ps[0].added, ending)
       else Target(source, ps[0], ending)[Cut(ps[0], |source|)..])
      + Tails(source, ps[1..], ending)
  }

  // ---------------------------------------------------------------- one block

  lemma {:induction false} NoneKept(context: seq<(nat, nat)>, oldStart: nat, newStart: nat, oldLen: nat, j: nat)
    requires Increasing(context, oldStart, newStart)
    requires oldLen <= oldStart || j < newStart
    ensures KeptFrom(context, oldLen, j) == None
  {
    if context != [] {
      NoneKept(context[1..], context[0].0 + 1, context[0].1 + 1, oldLen, j);
    }
  }

  lemma {:induction false} GapsEndMonotone(oldLen: nat, newLen: nat, context: seq<(nat, nat)>, oldStart: nat,
                                           newStart: nat)
    requires Increasing(context, oldStart, newStart) && oldStart <= oldLen && newStart <= newLen
    ensures newStart <= GapsEnd(oldLen, newLen, context, oldStart, newStart).1
    decreases |context|
  {
    if context != [] && context[0].0 < oldLen && context[0].1 < newLen {
      GapsEndMonotone(oldLen, newLen, context[1..], context[0].0 + 1, context[0].1 + 1);
    }
  }

  lemma BetweenSplit<T>(lines: seq<T>, from: nat, mid: nat, to: nat)
    requires from <= mid <= to && mid <= |lines|
    ensures Between(lines, from, to) == lines[from..mid] + Between(lines, mid, to)
  {
  }

  /** Copying from `from` to `mid` when no edit lies between. */
  lemma SpliceSkip<T>(lines: seq<T>, edits: seq<Edit<T>>, from: nat, mid: nat)
    requires from <= mid <= |lines| && Ordered(edits, mid)
    ensures Ordered(edits, from)
    ensures Splice(lines, edits, from) == lines[from..mid] + Splice(lines, edits, mid)
  {
    SpliceUnfold(lines, edits, from);
    SpliceUnfold(lines, edits, mid);
    hide Splice;
    if edits != [] {
      var e := edits[0];
      var tail := e.newLines + Splice(lines, edits[1..], e.End());
      BetweenSplit(lines, from, mid, e.start);
      Associative(Between(lines, from, e.start), e.newLines, Splice(lines, edits[1..], e.End()));
      Associative(Between(lines, mid, e.start), e.newLines, Splice(lines, edits[1..], e.End()));
      Associative(lines[from..mid], Between(lines, mid, e.start), tail);
    }
  }

  /** An edit that starts right at `from`. */
  lemma SpliceEdit<T>(lines: seq<T>, e: Edit<T>, rest: seq<Edit<T>>)
    requires Ordered(rest, e.End())
    ensures Ordered([e] + rest, e.start)
    ensures Splice(lines, [e] + rest, e.start) == e.newLines + Splice(lines, rest, e.End())
  {
    assert ([e] + rest)[1..] == rest;
    SpliceUnfold(lines, [e] + rest, e.start);
    assert Between(lines, e.start, e.start) == [];
  }

  lemma SpliceNothing<T>(lines: seq<T>, edits: seq<Edit<T>>, from: nat)
    requires edits == []
    ensures Ordered(edits, from) && Splice(lines, edits, from) == lines[Min(from, |lines|)..]
  {
  }

  function InsertedBy<T>(edits: seq<Edit<T>>): seq<T> {
    if edits == [] then [] else edits[0].newLines + InsertedBy(edits[1..])
  }

  /** The state of the gap walk at (`oldStart`, `newStart`), with `context` still to come. */
  ghost predicate Walk(source: seq<SourceLine>, p: Placement, context: seq<(nat, nat)>, oldStart: nat, newStart: nat) {
    && InFile(p, |source|)
    && Increasing(context, oldStart, newStart) && oldStart <= |p.pattern| && newStart <= |p.replacement|
    && GapsEnd(|p.pattern|, |p.replacement|, context, oldStart, newStart)
       == GapsEnd(|p.pattern|, |p.replacement|, p.context, 0, 0)
    && forall j :: newStart <= j < |p.replacement| ==>
      KeptFrom(p.context, |p.pattern|, j) == KeptFrom(context, |p.pattern|, j)
  }

  function GapsFrom(p: Placement, context: seq<(nat, nat)>, oldStart: nat, newStart: nat): seq<Replacement>
    requires p.Located? && oldStart <= |p.pattern| && newStart <= |p.replacement|
  {
    var r := GapEdits(p.start, p.pattern, p.replacement, context, oldStart, newStart);
    if r.Ok? then r.value else []
  }

  /** The rest of the walk produces the rest of the target: `inner` edits in place up to the
      cut, and from there on `outer` lines at the end of the file. */
  ghost predicate Produces(source: seq<SourceLine>, p: Placement, ending: LineEnding,
                           inner: seq<Edit<SourceLine>>, outer: seq<SourceLine>,
                           oldStart: nat, newStart: nat, rest: seq<Edit<SourceLine>>)
    requires InFile(p, |source|) && oldStart <= |p.pattern| && Ordered(rest, p.start + |p.pattern|)
  {
    var cut, target := Cut(p, |source|), Target(source, p, ending);
    && newStart <= cut
    && Ordered(inner + rest, p.start + oldStart)
    && Splice(source, inner + rest, p.start + oldStart)
       == target[newStart..cut] + Splice(source, rest, p.start + |p.pattern|)
    && outer == target[cut..]
  }

  function InnerEdits(gaps: seq<Replacement>, n: nat, ending: LineEnding): seq<Edit<SourceLine>> {
    LineEdits(Before(gaps, n), ending)
  }

  function OuterLines(gaps: seq<Replacement>, n: nat, ending: LineEnding): seq<SourceLine> {
    InsertedBy(LineEdits(WithStart(gaps, n), ending))
  }

  lemma TargetTail(source: seq<SourceLine>, p: Placement, ending: LineEnding, context: seq<(nat, nat)>,
                   oldStart: nat, newStart: nat, newEnd: nat)
    requires Walk(source, p, context, oldStart, newStart) && newStart <= newEnd <= |p.replacement|
    requires context == [] || context[0].0 >= |p.pattern| || newEnd <= context[0].1
    ensures Target(source, p, ending)[newStart..newEnd] == Inserted(p.replacement[newStart..newEnd], ending)
  {
    var target, added := Target(source, p, ending), Inserted(p.replacement[newStart..newEnd], ending);
    forall j | newStart <= j < newEnd
      ensures target[j] == added[j - newStart]
    {
      TailLine(source, p, ending, context, oldStart, newStart, newEnd, j);
    }
    hide *;
    SameSlice(target, newStart, newEnd, added);
  }

  lemma TailLine(source: seq<SourceLine>, p: Placement, ending: LineEnding, context: seq<(nat, nat)>,
                 oldStart: nat, newStart: nat, newEnd: nat, j: nat)
    requires Walk(source, p, context, oldStart, newStart) && newStart <= j < newEnd <= |p.replacement|
    requires context == [] || context[0].0 >= |p.pattern| || newEnd <= context[0].1
    ensures Target(source, p, ending)[j] == SourceLine(p.replacement[j], Some(ending))
  {
    hide Target, GapsEnd;
    if context != [] {
      NoneKept(context, context[0].0, context[0].1, |p.pattern|, j);
    }
    assert KeptFrom(p.context, |p.pattern|, j) == None;
  }

  lemma SameSlice<T>(s: seq<T>, a: nat, b: nat, t: seq<T>)
    requires a <= b <= |s| && |t| == b - a
    requires forall j :: a <= j < b ==> s[j] == t[j - a]
    ensures s[a..b] == t
  {
    forall i | 0 <= i < |t|
      ensures s[a..b][i] == t[i]
    {
      assert s[a + i] == t[a + i - a];
    }
  }

  lemma SpliceGap<T>(lines: seq<T>, gap: seq<Edit<T>>, edits: seq<Edit<T>>, from: nat, at: nat, added: seq<T>)
    requires from <= at && Ordered(edits, at)
    requires if gap == [] then from == at && added == [] else gap == [Edit(from, at - from, added)]
    ensures Ordered(gap + edits, from)
    ensures Splice(lines, gap + edits, from) == added + Splice(lines, edits, at)
  {
    hide Splice, Ordered;
    if gap == [] {
      assert gap + edits == edits && [] + Splice(lines, edits, at) == Splice(lines, edits, at);
    } else {
      SpliceEdit(lines, gap[0], edits);
    }
  }

  lemma LastGapProduces(source: seq<SourceLine>, p: Placement, ending: LineEnding, gap: seq<Edit<SourceLine>>,
                        oldStart: nat, newStart: nat, rest: seq<Edit<SourceLine>>)
    requires InFile(p, |source|) && Ordered(rest, p.start + |p.pattern|)
    requires oldStart <= |p.pattern| && newStart <= |p.replacement| == Cut(p, |source|)
    requires var added := Target(source, p, ending)[newStart..];
      if gap == [] then oldStart == |p.pattern| && added == []
      else gap == [Edit(p.start + oldStart, |p.pattern| - oldStart, added)]
    ensures Produces(source, p, ending, gap, [], oldStart, newStart, rest)
  {
    hide Cut, Target, Increasing, Splice, Ordered;
    var target := Target(source, p, ending);
    assert target[newStart..|target|] == target[newStart..] && target[|target|..] == [];
    SpliceGap(source, gap, rest, p.start + oldStart, p.start + |p.pattern|, target[newStart..]);
  }

  lemma OuterGapProduces(source: seq<SourceLine>, p: Placement, ending: LineEnding, newStart: nat,
                         rest: seq<Edit<SourceLine>>)
    requires InFile(p, |source|) && Ordered(rest, p.start + |p.pattern|)
    requires Cut(p, |source|) == newStart
    ensures Produces(source, p, ending, [], Target(source, p, ending)[newStart..], |p.pattern|, newStart, rest)
  {
    hide Cut, Target, Increasing, Splice, Ordered;
    var after := Splice(source, rest, p.start + |p.pattern|);
    assert [] + rest == rest;
    assert Target(source, p, ending)[newStart..newStart] + after == after;
  }

  /** A gap and the context line behind it. */
  lemma GapAndLineProduce(source: seq<SourceLine>, p: Placement, ending: LineEnding, gap: seq<Edit<SourceLine>>,
                          inner: seq<Edit<SourceLine>>, outer: seq<SourceLine>,
                          oldStart: nat, newStart: nat, context: (nat, nat), rest: seq<Edit<SourceLine>>)
    requires InFile(p, |source|) && Ordered(rest, p.start + |p.pattern|)
    requires oldStart <= context.0 < |p.pattern| && newStart <= context.1 < |p.replacement|
    requires var added := Target(source, p, ending)[newStart..context.1];
      if gap == [] then oldStart == context.0 && added == []
      else gap == [Edit(p.start + oldStart, context.0 - oldStart, added)]
    requires Target(source, p, ending)[context.1] == source[p.start + context.0]
    requires Produces(source, p, ending, inner, outer, context.0 + 1, context.1 + 1, rest)
    ensures Produces(source, p, ending, gap + inner, outer, oldStart, newStart, rest)
  {
    hide Cut, Target, Increasing, Splice, Ordered;
    var cut, target, at := Cut(p, |source|), Target(source, p, ending), p.start + context.0;
    var after := Splice(source, rest, p.start + |p.pattern|);
    SpliceSkip(source, inner + rest, at, at + 1);
    assert source[at..at + 1] == [source[at]];
    KeptLineSplice(source, target, at, context.1, cut, after);
    SpliceGap(source, gap, inner + rest, p.start + oldStart, at, target[newStart..context.1]);
    Associative(gap, inner, rest);
    Associative(target[newStart..context.1], target[context.1..cut], after);
    Pieces(target, newStart, context.1, cut);
  }

  lemma Pieces<T>(s: seq<T>, a: nat, b: nat, c: nat)
    requires a <= b <= c <= |s|
    ensures s[a..b] + s[b..c] == s[a..c]
  {
  }

  lemma KeptLineSplice<T>(source: seq<T>, target: seq<T>, at: nat, j: nat, cut: nat, after: seq<T>)
    requires at < |source| && j < cut <= |target| && target[j] == source[at]
    ensures [source[at]] + (target[j + 1..cut] + after) == target[j..cut] + after
  {
  }

  lemma GapFilters(gap: seq<Replacement>, more: seq<Replacement>, n: nat, ending: LineEnding)
    requires |gap| <= 1 && (gap != [] ==> gap[0].start < n)
    ensures InnerEdits(gap + more, n, ending) == LineEdits(gap, ending) + InnerEdits(more, n, ending)
    ensures OuterLines(gap + more, n, ending) == OuterLines(more, n, ending)
  {
    BeforeConcat(gap, more, n);
    WithStartConcat(gap, more, n);
    assert Before(gap, n) == gap && WithStart(gap, n) == [];
    hide Before, WithStart;
    assert [] + WithStart(more, n) == WithStart(more, n);
  }

  lemma LastGapFilters(gap: Replacement, n: nat, ending: LineEnding)
    ensures gap.start < n ==>
      InnerEdits([gap], n, ending) == [LineEdit(gap, ending)] && OuterLines([gap], n, ending) == []
    ensures gap.start == n ==>
      InnerEdits([gap], n, ending) == [] && OuterLines([gap], n, ending) == Inserted(gap.newLines, ending)
    ensures InnerEdits([], n, ending) == [] && OuterLines([], n, ending) == []
  {
    assert gap.start < n ==> Before([gap], n) == [gap];
    assert gap.start == n ==> WithStart([gap], n) == [gap] && Before([gap], n) == [];
    hide Before, WithStart, Inserted;
    var tail := LineEdits([gap], ending);
    assert InsertedBy(tail) == tail[0].newLines + InsertedBy(tail[1..]);
  }

  /** The whole walk over the context pairs of a located chunk. */
  lemma {:induction false} GapsProduce(source: seq<SourceLine>, p: Placement, ending: LineEnding,
                                       context: seq<(nat, nat)>, oldStart: nat, newStart: nat,
                                       rest: seq<Edit<SourceLine>>)
    requires Walk(source, p, context, oldStart, newStart) && Ordered(rest, p.start + |p.pattern|)
    ensures var gaps := GapsFrom(p, context, oldStart, newStart);
      Produces(source, p, ending, InnerEdits(gaps, |source|, ending), OuterLines(gaps, |source|, ending),
               oldStart, newStart, rest)
    decreases |context|
  {
    hide Produces, Target, GapsFrom, GapEdit, Inserted, InnerEdits, OuterLines, LineEdits, LineEdit, Cut, Increasing,
         Ordered, KeptFrom, GapsEnd;
    if context == [] || context[0].0 >= |p.pattern| || context[0].1 >= |p.replacement| {
      WalkEnds(source, p, ending, context, oldStart, newStart, rest);
    } else {
      WalkStep(source, p, ending, context, oldStart, newStart);
      GapsProduce(source, p, ending, context[1..], context[0].0 + 1, context[0].1 + 1, rest);
      hide Walk;
      var gap := GapEdit(p.start, p.replacement, oldStart, newStart, context[0]);
      var more := GapsFrom(p, context[1..], context[0].0 + 1, context[0].1 + 1);
      GapShape(source, p, ending, oldStart, newStart, context[0]);
      GapFilters(gap, more, |source|, ending);
      GapAndLineProduce(source, p, ending, LineEdits(gap, ending), InnerEdits(more, |source|, ending),
                        OuterLines(more, |source|, ending), oldStart, newStart, context[0], rest);
    }
  }

  lemma GapShape(source: seq<SourceLine>, p: Placement, ending: LineEnding, oldStart: nat, newStart: nat,
                 context: (nat, nat))
    requires p.Located? && p.start + |p.pattern| <= |source|
    requires oldStart <= context.0 < |p.pattern| && newStart <= context.1 < |p.replacement|
    ensures var gap := GapEdit(p.start, p.replacement, oldStart, newStart, context);
      var added := Inserted(p.replacement[newStart..context.1], ending);
      && |gap| <= 1 && (gap != [] ==> gap[0].start < |source|)
      && if gap == [] then LineEdits(gap, ending) == [] && oldStart == context.0 && added == []
         else LineEdits(gap, ending) == [Edit(p.start + oldStart, context.0 - oldStart, added)]
  {
  }

  lemma WalkEnds(source: seq<SourceLine>, p: Placement, ending: LineEnding, context: seq<(nat, nat)>,
                 oldStart: nat, newStart: nat, rest: seq<Edit<SourceLine>>)
    requires Walk(source, p, context, oldStart, newStart) && Ordered(rest, p.start + |p.pattern|)
    requires context == [] || context[0].0 >= |p.pattern| || context[0].1 >= |p.replacement|
    ensures var gaps := GapsFrom(p, context, oldStart, newStart);
      Produces(source, p, ending, InnerEdits(gaps, |source|, ending), OuterLines(gaps, |source|, ending),
               oldStart, newStart, rest)
  {
    var target, gaps := Target(source, p, ending), GapsFrom(p, context, oldStart, newStart);
    TargetTail(source, p, ending, context, oldStart, newStart, |p.replacement|);
    assert target[newStart..] == target[newStart..|p.replacement|];
    assert p.replacement[newStart..] == p.replacement[newStart..|p.replacement|];
    assert gaps == [] ==> oldStart == |p.pattern| && newStart == |p.replacement|;
    assert gaps != [] ==> gaps == [Edit(p.start + oldStart, |p.pattern| - oldStart, p.replacement[newStart..])];
    assert Cut(p, |source|)
           == if oldStart == |p.pattern| && p.start + |p.pattern| == |source| then newStart else |p.replacement|;
    hide Produces, Target, GapsFrom, InnerEdits, OuterLines, Inserted, Cut, Walk, Ordered, Increasing;
    LastGapFilters(if gaps == [] then Edit(0, 0, []) else gaps[0], |source|, ending);
    if gaps == [] {
      assert target[newStart..] == [];
      LastGapProduces(source, p, ending, [], oldStart, newStart, rest);
    } else if gaps[0].start < |source| {
      LastGapProduces(source, p, ending, [LineEdit(gaps[0], ending)], oldStart, newStart, rest);
    } else {
      OuterGapProduces(source, p, ending, newStart, rest);
    }
  }

  lemma WalkStep(source: seq<SourceLine>, p: Placement, ending: LineEnding, context: seq<(nat, nat)>,
                 oldStart: nat, newStart: nat)
    requires Walk(source, p, context, oldStart, newStart)
    requires context != [] && context[0].0 < |p.pattern| && context[0].1 < |p.replacement|
    ensures oldStart <= context[0].0 && newStart <= context[0].1
    ensures Walk(source, p, context[1..], context[0].0 + 1, context[0].1 + 1)
    ensures GapsFrom(p, context, oldStart, newStart)
            == GapEdit(p.start, p.replacement, oldStart, newStart, context[0])
               + GapsFrom(p, context[1..], context[0].0 + 1, context[0].1 + 1)
    ensures var target := Target(source, p, ending);
      && target[newStart..context[0].1] == Inserted(p.replacement[newStart..context[0].1], ending)
      && target[context[0].1] == source[p.start + context[0].0]
  {
    TargetTail(source, p, ending, context, oldStart, newStart, context[0].1);
    GapEditsWithin(p.start, p.pattern, p.replacement, context[1..], context[0].0 + 1, context[0].1 + 1);
    hide Target, Increasing, Within;
    assert KeptFrom(p.context, |p.pattern|, context[0].1) == Some(context[0].0);
  }

  lemma BlockMeaning(source: seq<SourceLine>, p: Placement, ending: LineEnding, rest: seq<Edit<SourceLine>>)
    requires InFile(p, |source|) && Ordered(rest, p.start + |p.pattern|)
    ensures var gaps := OwnEdits(p, PreserveLineEndings);
      Produces(source, p, ending, InnerEdits(gaps, |source|, ending), OuterLines(gaps, |source|, ending), 0, 0, rest)
  {
    hide Produces;
    GapsProduce(source, p, ending, p.context, 0, 0, rest);
  }

  // ---------------------------------------------------------------- all blocks

  lemma {:induction false} InFileOrderMembers(ps: seq<Placement>, from: nat, n: nat)
    requires InFileOrder(ps, from, n)
    ensures forall i :: 0 <= i < |ps| && ps[i].Located? ==> InFile(ps[i], n)
    decreases |ps|
  {
    if ps != [] {
      InFileOrderMembers(ps[1..], ps[0].Next(from), n);
    }
  }

  lemma InnerConcat(a: seq<Replacement>, b: seq<Replacement>, n: nat, ending: LineEnding)
    ensures InnerEdits(a + b, n, ending) == InnerEdits(a, n, ending) + InnerEdits(b, n, ending)
    ensures OuterLines(a + b, n, ending) == OuterLines(a, n, ending) + OuterLines(b, n, ending)
  {
    BeforeConcat(a, b, n);
    WithStartConcat(a, b, n);
    var x, y := WithStart(a, n), WithStart(b, n);
    hide Before, WithStart;
    assert LineEdits(x + y, ending) == LineEdits(x, ending) + LineEdits(y, ending);
    InsertedByConcat(LineEdits(x, ending), LineEdits(y, ending));
  }

  lemma {:induction false} InsertedByConcat<T>(a: seq<Edit<T>>, b: seq<Edit<T>>)
    ensures InsertedBy(a + b) == InsertedBy(a) + InsertedBy(b)
  {
    if a == [] {
      assert a + b == b;
    } else {
      assert (a + b)[1..] == a[1..] + b;
      assert InsertedBy(a + b) == a[0].newLines + InsertedBy(a[1..] + b);
      assert InsertedBy(a) == a[0].newLines + InsertedBy(a[1..]);
      hide InsertedBy;
      InsertedByConcat(a[1..], b);
      Associative(a[0].newLines, InsertedBy(a[1..]), InsertedBy(b));
    }
  }

  /** Splicing the inner edits of the placements is splicing their bodies. */
  ghost predicate MeansBodies(source: seq<SourceLine>, ps: seq<Placement>, from: nat, ending: LineEnding)
    requires forall i :: 0 <= i < |ps| && ps[i].Located? ==> InFile(ps[i], |source|)
  {
    var edits := Flatten(ps, PreserveLineEndings);
    var inner, bodies := InnerEdits(edits, |source|, ending), Bodies(source, ps, ending);
    && Ordered(inner, from) && Ordered(bodies, from)
    && Splice(source, inner, from) == Splice(source, bodies, from)
    && OuterLines(edits, |source|, ending) == Tails(source, ps, ending)
  }

  lemma {:induction false} PlacementsMeanBodies(source: seq<SourceLine>, ps: seq<Placement>, from: nat,
                                                ending: LineEnding)
    requires InFileOrder(ps, from, |source|) && from <= |source|
    ensures forall i :: 0 <= i < |ps| && ps[i].Located? ==> InFile(ps[i], |source|)
    ensures MeansBodies(source, ps, from, ending)
    decreases |ps|
  {
    InFileOrderMembers(ps, from, |source|);
    if ps == [] {
      assert InnerEdits([], |source|, ending) == [] && OuterLines([], |source|, ending) == [];
    } else {
      var p := ps[0];
      PlacementsMeanBodies(source, ps[1..], p.Next(from), ending);
      InnerConcat(OwnEdits(p, PreserveLineEndings), Flatten(ps[1..], PreserveLineEndings), |source|, ending);
      if p.AtEnd? {
        hide Splice;
        InsertionMeansTail(source, ps, from, ending);
      } else {
        hide Splice;
        BlockMeansBody(source, ps, from, ending);
      }
    }
  }

  lemma InsertionMeansTail(source: seq<SourceLine>, ps: seq<Placement>, from: nat, ending: LineEnding)
    requires ps != [] && ps[0].AtEnd? && ps[0].index == |source|
    requires forall i :: 0 <= i < |ps| && ps[i].Located? ==> InFile(ps[i], |source|)
    requires forall i :: 0 <= i < |ps[1..]| && ps[1..][i].Located? ==> InFile(ps[1..][i], |source|)
    requires MeansBodies(source, ps[1..], from, ending)
    ensures MeansBodies(source, ps, from, ending)
  {
    var own, rest := OwnEdits(ps[0], PreserveLineEndings), Flatten(ps[1..], PreserveLineEndings);
    InnerConcat(own, rest, |source|, ending);
    assert own == [Edit(|source|, 0, ps[0].added)];
    LastGapFilters(own[0], |source|, ending);
    hide Splice, Ordered, InnerEdits, OuterLines, OwnEdits;
    assert [] + InnerEdits(rest, |source|, ending) == InnerEdits(rest, |source|, ending);
    assert Bodies(source, ps, ending) == Bodies(source, ps[1..], ending);
  }

  lemma BlockUnfold(source: seq<SourceLine>, ps: seq<Placement>, ending: LineEnding)
    requires ps != [] && InFile(ps[0], |source|)
    requires forall i :: 0 <= i < |ps| && ps[i].Located? ==> InFile(ps[i], |source|)
    requires forall i :: 0 <= i < |ps[1..]| && ps[1..][i].Located? ==> InFile(ps[1..][i], |source|)
    ensures var p, target, cut := ps[0], Target(source, ps[0], ending), Cut(ps[0], |source|);
      && Bodies(source, ps, ending) == [Edit(p.start, |p.pattern|, target[..cut])] + Bodies(source, ps[1..], ending)
      && Tails(source, ps, ending) == target[cut..] + Tails(source, ps[1..], ending)
      && Flatten(ps, PreserveLineEndings) == OwnEdits(p, PreserveLineEndings) + Flatten(ps[1..], PreserveLineEndings)
  {
  }

  lemma BlockMeansBody(source: seq<SourceLine>, ps: seq<Placement>, from: nat, ending: LineEnding)
    requires ps != [] && InFile(ps[0], |source|) && from <= ps[0].start
    requires forall i :: 0 <= i < |ps| && ps[i].Located? ==> InFile(ps[i], |source|)
    requires forall i :: 0 <= i < |ps[1..]| && ps[1..][i].Located? ==> InFile(ps[1..][i], |source|)
    requires MeansBodies(source, ps[1..], ps[0].start + |ps[0].pattern|, ending)
    ensures MeansBodies(source, ps, from, ending)
  {
    hide Splice, Ordered, Bodies, Tails, Target, Cut, Flatten, OwnEdits, InnerEdits, OuterLines, Increasing;
    var p, n := ps[0], |source|;
    var own, rest := OwnEdits(p, PreserveLineEndings), Flatten(ps[1..], PreserveLineEndings);
    var target, cut := Target(source, p, ending), Cut(p, n);
    var body, bodies := Edit(p.start, |p.pattern|, target[..cut]), Bodies(source, ps[1..], ending);
    BlockUnfold(source, ps, ending);
    InnerConcat(own, rest, n, ending);
    var inner := InnerEdits(own, n, ending) + InnerEdits(rest, n, ending);
    BlockMeaning(source, p, ending, InnerEdits(rest, n, ending));
    assert target[0..cut] == target[..cut];
    SpliceEdit(source, body, bodies);
    SpliceSkip(source, [body] + bodies, from, p.start);
    SpliceSkip(source, inner, from, p.start);
  }

  /** Edits that insert at the very end just append their lines. */
  lemma {:induction false} SpliceAtEnd<T>(lines: seq<T>, tail: seq<Edit<T>>)
    requires forall i :: 0 <= i < |tail| ==> tail[i].start == |lines| && tail[i].oldLen == 0
    ensures Ordered(tail, |lines|) && Splice(lines, tail, |lines|) == InsertedBy(tail)
  {
    if tail != [] {
      SpliceAtEnd(lines, tail[1..]);
      assert [tail[0]] + tail[1..] == tail;
      SpliceEdit(lines, tail[0], tail[1..]);
    }
  }

  lemma {:induction false} SpliceAppends<T>(lines: seq<T>, edits: seq<Edit<T>>, tail: seq<Edit<T>>, from: nat)
    requires Ordered(edits, from) && Within(edits, from, |lines|)
    requires forall i :: 0 <= i < |tail| ==> tail[i].start == |lines| && tail[i].oldLen == 0
    ensures Ordered(edits + tail, from)
    ensures Splice(lines, edits + tail, from) == Splice(lines, edits, from) + InsertedBy(tail)
    decreases |edits|
  {
    hide Splice, InsertedBy;
    SpliceUnfold(lines, edits, from);
    if edits == [] {
      SpliceAtEnd(lines, tail);
      WithinBounds(edits, from, |lines|);
      SpliceSkip(lines, tail, from, |lines|);
      assert edits + tail == tail && lines[from..|lines|] == lines[from..];
    } else {
      var e := edits[0];
      assert (edits + tail)[1..] == edits[1..] + tail;
      SpliceAppends(lines, edits[1..], tail, e.End());
      SpliceUnfold(lines, edits + tail, from);
      Associative(Between(lines, from, e.start) + e.newLines, Splice(lines, edits[1..], e.End()), InsertedBy(tail));
    }
  }

  /** The meaning of a PreserveLineEndings update: the lines outside all blocks stay as they
      are, each block gives way to its target, and insertions at the end follow in order. */
  lemma PreserveMeaning(source: seq<SourceLine>, chunks: seq<UpdateFileChunk>, ps: seq<Placement>, ending: LineEnding)
    requires ChunksOk(chunks) && Place(Texts(source), chunks, 0, PreserveLineEndings) == Ok(ps)
    ensures forall i :: 0 <= i < |ps| && ps[i].Located? ==> InFile(ps[i], |source|)
    ensures Ordered(Bodies(source, ps, ending), 0)
    ensures var computed := ComputedEdits(Texts(source), chunks, PreserveLineEndings);
      && computed.Ok? && Ordered(LineEdits(computed.value, ending), 0)
      && Splice(source, LineEdits(computed.value, ending), 0)
         == Splice(source, Bodies(source, ps, ending), 0) + Tails(source, ps, ending)
  {
    hide Place, InFileOrder, Ordered, Splice, Bodies, Tails, InFile, Within, Flatten, StableSort, Before, WithStart,
         InsertedBy, Increasing, AllEdits;
    var n := |source|;
    EditsAreFlattened(Texts(source), chunks, 0, PreserveLineEndings);
    PlacedInFileOrder(Texts(source), chunks, 0, PreserveLineEndings);
    PlacementsMeanBodies(source, ps, 0, ending);
    var edits := Flatten(ps, PreserveLineEndings);
    SortedFlattenWithin(ps, n, PreserveLineEndings);
    FlattenWithin(ps, 0, n, PreserveLineEndings);
    FlattenEndBy(ps, 0, n, PreserveLineEndings);
    BeforeStarts(edits, n);
    LineEditsAppend(source, Before(edits, n), WithStart(edits, n), ending);
  }

  lemma LineEditsAppend(source: seq<SourceLine>, low: seq<Replacement>, high: seq<Replacement>, ending: LineEnding)
    requires Within(low, 0, |source|) && EndBy(high, |source|)
    requires forall i :: 0 <= i < |high| ==> high[i].start == |source|
    ensures Ordered(LineEdits(low, ending), 0) && Ordered(LineEdits(low + high, ending), 0)
    ensures Splice(source, LineEdits(low + high, ending), 0)
            == Splice(source, LineEdits(low, ending), 0) + InsertedBy(LineEdits(high, ending))
  {
    hide Splice, InsertedBy, Inserted, Ordered, Within;
    LineEditsWithin(low, ending, 0, |source|);
    WithinBounds(LineEdits(low, ending), 0, |source|);
    assert LineEdits(low + high, ending) == LineEdits(low, ending) + LineEdits(high, ending);
    assert forall i :: 0 <= i < |high| ==> high[i].End() <= |source|;
    SpliceAppends(source, LineEdits(low, ending), LineEdits(high, ending), 0);
  }

  lemma {:induction false} LineEditsWithin(rs: seq<Replacement>, ending: LineEnding, lo: nat, hi: nat)
    requires Within(rs, lo, hi)
    ensures Within(LineEdits(rs, ending), lo, hi)
    decreases |rs|
  {
    if rs != [] {
      LineEditsWithin(rs[1..], ending, rs[0].End(), hi);
      assert LineEdits(rs, ending)[1..] == LineEdits(rs[1..], ending);
    }
  }
}
