/** Source files as lines that carry their own terminators (text_file.rs). */
module TextFile {
  import opened Text

  datatype LineEnding = Lf | CrLf | Cr {
    function AsStr(): string {
      match this
      case Lf => "\n"
      case CrLf => "\r\n"
      case Cr => "\r"
    }

    function Len(): nat {
      if CrLf? then 2 else 1
    }
  }

  datatype SourceLine = SourceLine(text: string, ending: Option<LineEnding>) {
    function Contents(): string {
      text + if ending.Some? then ending.value.AsStr() else ""
    }
  }

  /** Replace `oldLen` lines from `start` on by `newLines`. */
  datatype Edit<T> = Edit(start: nat, oldLen: nat, newLines: seq<T>) {
    function End(): nat { start + oldLen }
  }

  type Replacement = Edit<string>

  // ---------------------------------------------------------------- parsing

  predicate IsBreak(c: char) { c == '\r' || c == '\n' }

  predicate Plain(s: string) {
    forall i :: 0 <= i < |s| ==> !IsBreak(s[i])
  }

  function EndingAt(s: string, n: nat): LineEnding
    requires n < |s| && IsBreak(s[n])
  {
    if s[n] == '\n' then Lf
    else if n + 1 < |s| && s[n + 1] == '\n' then CrLf
    else Cr
  }

  /** Where the first line of `s` stops. */
  function FirstBreak(s: string): (n: nat)
    ensures n <= |s| && Plain(s[..n])
    ensures n < |s| ==> IsBreak(s[n])
  {
    if s == "" || IsBreak(s[0]) then 0 else 1 + FirstBreak(s[1..])
  }

  function ParseLines(s: string): seq<SourceLine>
    decreases |s|
  {
    var n := FirstBreak(s);
    if s == "" then []
    else if n == |s| then [SourceLine(s, None)]
    else
      var ending := EndingAt(s, n);
      [SourceLine(s[..n], Some(ending))] + ParseLines(s[n + ending.Len()..])
  }

  function Render(lines: seq<SourceLine>): string {
    if lines == [] then "" else lines[0].Contents() + Render(lines[1..])
  }

  /** The lists of lines that parsing can produce. */
  predicate Canonical(lines: seq<SourceLine>) {
    lines == [] ||
    (&& Plain(lines[0].text)
     && (lines[0].ending.None? ==> lines[0].text != "" && |lines| == 1)
     && (lines[0].ending == Some(Cr) && |lines| > 1 ==> lines[1] != SourceLine("", Some(Lf)))
     && Canonical(lines[1..]))
  }

  lemma {:induction false} FirstBreakAt(text: string, rest: string)
    requires Plain(text)
    requires rest == "" || IsBreak(rest[0])
    ensures FirstBreak(text + rest) == |text|
  {
    if text == "" {
      assert text + rest == rest;
    } else {
      FirstBreakAt(text[1..], rest);
      assert (text + rest)[1..] == text[1..] + rest;
    }
  }

  lemma RenderCons(line: SourceLine, rest: seq<SourceLine>)
    ensures Render([line] + rest) == line.Contents() + Render(rest)
  {
  }

  lemma {:induction false} RenderSnoc(lines: seq<SourceLine>, i: nat)
    requires i < |lines|
    ensures Render(lines[..i + 1]) == Render(lines[..i]) + lines[i].Contents()
  {
    assert lines[..i + 1] == lines[..i] + [lines[i]];
    RenderConcat(lines[..i], [lines[i]]);
  }

  lemma {:induction false} RenderConcat(a: seq<SourceLine>, b: seq<SourceLine>)
    ensures Render(a + b) == Render(a) + Render(b)
  {
    if a == [] {
      assert a + b == b;
    } else {
      assert (a + b)[1..] == a[1..] + b;
      RenderConcat(a[1..], b);
    }
  }

  lemma EndingText(s: string, n: nat)
    requires n < |s| && IsBreak(s[n])
    ensures var next := n + EndingAt(s, n).Len();
      && next <= |s|
      && s == s[..n] + EndingAt(s, n).AsStr() + s[next..]
      && s[n..next] == EndingAt(s, n).AsStr()
  {
    var next := n + EndingAt(s, n).Len();
    assert s[n..next] == EndingAt(s, n).AsStr();
  }

  /** Nothing of a file is lost by parsing it. */
  lemma {:induction false} RenderParse(s: string)
    ensures Render(ParseLines(s)) == s
    decreases |s|
  {
    var n := FirstBreak(s);
    if s != "" && n < |s| {
      var line, rest := SourceLine(s[..n], Some(EndingAt(s, n))), s[n + EndingAt(s, n).Len()..];
      assert ParseLines(s) == [line] + ParseLines(rest);
      EndingText(s, n);
      RenderParse(rest);
      hide EndingAt, LineEnding.AsStr, LineEnding.Len, ParseLines;
      RenderCons(line, ParseLines(rest));
    }
  }

  /** Parsed texts hold no CR or LF, and only the last line may lack an ending. */
  lemma {:induction false} ParseIsCanonical(s: string)
    ensures Canonical(ParseLines(s))
    decreases |s|
  {
    var n := FirstBreak(s);
    if s != "" && n < |s| {
      var after := n + EndingAt(s, n).Len();
      ParseIsCanonical(s[after..]);
      assert s[after..] != "" ==> s[after..][0] == s[after];
    }
  }

  lemma {:induction false} ParseOfRendered(lines: seq<SourceLine>)
    requires Canonical(lines)
    ensures ParseLines(Render(lines)) == lines
  {
    if lines != [] {
      ParseOfRendered(lines[1..]);
      var line, rest := lines[0], Render(lines[1..]);
      if line.ending.Some? {
        if line.ending == Some(Cr) && rest != "" {
          FirstCharacter(lines[1..]);
        }
        ParseFirstLine(line.text, line.ending.value, rest);
      } else {
        assert lines == [line] && Render(lines) == line.text == line.text + "";
        FirstBreakAt(line.text, "");
      }
    }
  }

  lemma ParseFirstLine(text: string, ending: LineEnding, rest: string)
    requires Plain(text)
    requires ending == Cr && rest != "" ==> rest[0] != '\n'
    ensures ParseLines(text + ending.AsStr() + rest) == [SourceLine(text, Some(ending))] + ParseLines(rest)
  {
    var s, after := text + ending.AsStr() + rest, ending.AsStr() + rest;
    assert s == text + after;
    FirstBreakAt(text, after);
    assert s[..|text|] == text && s[|text| + ending.Len()..] == rest;
    assert |after| > 1 ==> s[|text| + 1] == after[1];
    assert EndingAt(s, |text|) == ending;
  }

  lemma FirstCharacter(lines: seq<SourceLine>)
    requires Canonical(lines) && Render(lines) != ""
    ensures Render(lines)[0] == '\n' ==> lines[0] == SourceLine("", Some(Lf))
  {
  }

  /** Parsing undoes rendering on exactly the canonical lists. */
  lemma ParseRender(lines: seq<SourceLine>)
    ensures ParseLines(Render(lines)) == lines <==> Canonical(lines)
  {
    if Canonical(lines) {
      ParseOfRendered(lines);
    }
    ParseIsCanonical(Render(lines));
  }

  lemma ThreePieces<T>(s: seq<T>, a: nat, b: nat, c: nat)
    requires a <= b <= c <= |s|
    ensures s[a..] == s[a..b] + s[b..c] + s[c..]
  {
  }

  lemma ParseNextLine(s: string, lineStart: nat, cursor: nat)
    requires lineStart <= cursor < |s| && Plain(s[lineStart..cursor]) && IsBreak(s[cursor])
    ensures var next := cursor + |EndingAt(s, cursor).AsStr()|;
      && next <= |s|
      && ParseLines(s[lineStart..])
         == [SourceLine(s[lineStart..cursor], Some(EndingAt(s, cursor)))] + ParseLines(s[next..])
  {
    var ending := EndingAt(s, cursor);
    var next := cursor + ending.Len();
    EndingText(s, cursor);
    hide EndingAt, LineEnding.AsStr, ParseLines;
    ThreePieces(s, lineStart, cursor, next);
    ParseFirstLine(s[lineStart..cursor], ending, s[next..]);
  }

  /** `parsed` is what precedes the line that starts at `lineStart`. */
  ghost predicate ParsedUpTo(s: string, lineStart: nat, parsed: seq<SourceLine>) {
    lineStart <= |s| && parsed + ParseLines(s[lineStart..]) == ParseLines(s)
  }

  lemma ParseStep(s: string, lineStart: nat, cursor: nat, parsed: seq<SourceLine>)
    requires ParsedUpTo(s, lineStart, parsed)
    requires lineStart <= cursor < |s| && Plain(s[lineStart..cursor]) && IsBreak(s[cursor])
    ensures var ending := EndingAt(s, cursor);
      && 0 < ending.Len() <= |s| - cursor
      && ParsedUpTo(s, cursor + ending.Len(), parsed + [SourceLine(s[lineStart..cursor], Some(ending))])
  {
    hide ParseLines;
    ParseNextLine(s, lineStart, cursor);
    var next := cursor + EndingAt(s, cursor).Len();
    var line := [SourceLine(s[lineStart..cursor], Some(EndingAt(s, cursor)))];
    assert parsed + (line + ParseLines(s[next..])) == parsed + line + ParseLines(s[next..]);
  }

  lemma ParseStart(s: string)
    ensures ParsedUpTo(s, 0, [])
  {
    assert s[0..] == s;
  }

  lemma ParseEnd(s: string, lineStart: nat, parsed: seq<SourceLine>)
    requires ParsedUpTo(s, lineStart, parsed) && Plain(s[lineStart..])
    ensures ParseLines(s) == parsed + if lineStart < |s| then [SourceLine(s[lineStart..], None)] else []
  {
    FirstBreakAt(s[lineStart..], "");
    assert s[lineStart..] + "" == s[lineStart..];
  }

  /** The first ending found in the file; LF for a file without one. */
  function PreferredEnding(lines: seq<SourceLine>): LineEnding {
    if lines != [] && lines[0].ending.Some? then lines[0].ending.value else Lf
  }

  /** So new lines end as the first line break of the text reads; with LF where there is none. */
  lemma PreferredIsFirst(s: string, i: nat)
    requires i <= |s| && Plain(s[..i])
    ensures i == |s| ==> PreferredEnding(ParseLines(s)) == Lf
    ensures i < |s| && IsBreak(s[i]) ==>
      PreferredEnding(ParseLines(s)).AsStr()
      == if s[i] == '\n' then "\n" else if i + 1 < |s| && s[i + 1] == '\n' then "\r\n" else "\r"
  {
    hide ParseLines;
    assert s == s[..i] + s[i..];
    if i == |s| || IsBreak(s[i]) {
      FirstBreakAt(s[..i], s[i..]);
      FirstLineEnds(s);
    }
  }

  lemma FirstLineEnds(s: string)
    ensures var n := FirstBreak(s);
      PreferredEnding(ParseLines(s)) == if n == |s| then Lf else EndingAt(s, n)
  {
    hide EndingAt, FirstBreak;
  }

  function Texts(lines: seq<SourceLine>): (texts: seq<string>)
    ensures |texts| == |lines|
    ensures forall i :: 0 <= i < |lines| ==> texts[i] == lines[i].text
  {
    seq(|lines|, i requires 0 <= i < |lines| => lines[i].text)
  }

  // ---------------------------------------------------------------- editing

  /** Edits in file order that do not overlap and start at `from` or later. */
  predicate Ordered<T>(edits: seq<Edit<T>>, from: nat) {
    edits == [] || (from <= edits[0].start && Ordered(edits[1..], edits[0].End()))
  }

  /** The stretch [a, b) of `s`, cut off at its end. */
  function Between<T>(s: seq<T>, a: nat, b: nat): seq<T>
    requires a <= b
  {
    s[Min(a, |s|)..Min(b, |s|)]
  }

  /** What `edits` make of the lines from `from` on. */
  function Splice<T>(lines: seq<T>, edits: seq<Edit<T>>, from: nat): seq<T>
    requires Ordered(edits, from)
    decreases |edits|
  {
    if edits == [] then lines[Min(from, |lines|)..]
    else
      Between(lines, from, edits[0].start)
      + edits[0].newLines
      + Splice(lines, edits[1..], edits[0].End())
  }

  lemma SpliceUnfold<T>(lines: seq<T>, edits: seq<Edit<T>>, from: nat)
    requires Ordered(edits, from)
    ensures edits == [] ==> Splice(lines, edits, from) == lines[Min(from, |lines|)..]
    ensures edits != [] ==>
      && from <= edits[0].start && Ordered(edits[1..], edits[0].End())
      && Splice(lines, edits, from)
         == Between(lines, from, edits[0].start) + edits[0].newLines + Splice(lines, edits[1..], edits[0].End())
  {
  }

  /** `done` is the result up to edit `k`, made from the lines before `from`. */
  ghost predicate SplicedUpTo<T>(lines: seq<T>, edits: seq<Edit<T>>, k: nat, from: nat, done: seq<T>) {
    && k <= |edits| && Ordered(edits, 0) && Ordered(edits[k..], from)
    && done + Splice(lines, edits[k..], from) == Splice(lines, edits, 0)
  }

  lemma SpliceStep<T>(lines: seq<T>, edits: seq<Edit<T>>, k: nat, from: nat, done: seq<T>)
    requires k < |edits| && SplicedUpTo(lines, edits, k, from, done)
    ensures from <= edits[k].start
    ensures SplicedUpTo(lines, edits, k + 1, edits[k].End(),
                        done + (Between(lines, from, edits[k].start) + edits[k].newLines))
  {
    assert edits[k..][1..] == edits[k + 1..];
  }

  lemma SpliceStart<T>(lines: seq<T>, edits: seq<Edit<T>>)
    requires Ordered(edits, 0)
    ensures SplicedUpTo(lines, edits, 0, 0, [])
  {
    assert edits[0..] == edits;
  }

  lemma SpliceEnd<T>(lines: seq<T>, edits: seq<Edit<T>>, from: nat, done: seq<T>)
    requires SplicedUpTo(lines, edits, |edits|, from, done)
    ensures Ordered(edits, 0)
    ensures Splice(lines, edits, 0) == done + lines[Min(from, |lines|)..]
  {
    assert edits[|edits|..] == [];
  }

  /** Inserted lines, terminated in the preferred style. */
  function Inserted(texts: seq<string>, ending: LineEnding): (lines: seq<SourceLine>)
    ensures |lines| == |texts|
  {
    seq(|texts|, i requires 0 <= i < |texts| => SourceLine(texts[i], Some(ending)))
  }

  function LineEdit(r: Replacement, ending: LineEnding): Edit<SourceLine> {
    Edit(r.start, r.oldLen, Inserted(r.newLines, ending))
  }

  function LineEdits(rs: seq<Replacement>, ending: LineEnding): (edits: seq<Edit<SourceLine>>)
    ensures |edits| == |rs|
    ensures forall i :: 0 <= i < |rs| ==> edits[i] == LineEdit(rs[i], ending)
  {
    seq(|rs|, i requires 0 <= i < |rs| => LineEdit(rs[i], ending))
  }

  lemma {:induction false} LineEditsOrdered(rs: seq<Replacement>, ending: LineEnding, from: nat)
    ensures Ordered(LineEdits(rs, ending), from) == Ordered(rs, from)
    decreases |rs|
  {
    if rs != [] {
      assert LineEdits(rs, ending)[1..] == LineEdits(rs[1..], ending);
      LineEditsOrdered(rs[1..], ending, rs[0].End());
    }
  }

  function Terminated(line: SourceLine, ending: LineEnding): SourceLine {
    if line.ending.None? then line.(ending := Some(ending)) else line
  }

  function Terminate(lines: seq<SourceLine>, ending: LineEnding): (r: seq<SourceLine>)
    ensures |r| == |lines|
    ensures forall i :: 0 <= i < |lines| ==> r[i] == Terminated(lines[i], ending)
  {
    seq(|lines|, i requires 0 <= i < |lines| => Terminated(lines[i], ending))
  }

  class SourceFile {
    var lines: seq<SourceLine>
    var preferredEnding: LineEnding

    /** Splits `contents` with one cursor over its characters. */
    constructor Parse(contents: string)
      ensures lines == ParseLines(contents)
      ensures preferredEnding == PreferredEnding(lines)
    {
      ParseStart(contents);
      hide ParsedUpTo, ParseLines, EndingAt, LineEnding.Len;
      var parsed: seq<SourceLine> := [];
      var preferred: Option<LineEnding> := None;
      var lineStart, cursor := 0, 0;
      while cursor < |contents|
        invariant 0 <= lineStart <= cursor <= |contents|
        invariant Plain(contents[lineStart..cursor])
        invariant ParsedUpTo(contents, lineStart, parsed)
        invariant preferred == if parsed == [] then None else parsed[0].ending
        invariant parsed == [] || parsed[0].ending.Some?
      {
        if !IsBreak(contents[cursor]) {
          assert contents[lineStart..cursor + 1] == contents[lineStart..cursor] + [contents[cursor]];
          cursor := cursor + 1;
        } else {
          var ending := EndingAt(contents, cursor);
          if preferred.None? {
            preferred := Some(ending);
          }
          ParseStep(contents, lineStart, cursor, parsed);
          parsed := parsed + [SourceLine(contents[lineStart..cursor], Some(ending))];
          assert parsed[0].ending.Some?;
          cursor := cursor + ending.Len();
          lineStart := cursor;
        }
      }
      if lineStart < |contents| {
        assert contents[lineStart..cursor] == contents[lineStart..];
        ParseEnd(contents, lineStart, parsed);
        parsed := parsed + [SourceLine(contents[lineStart..], None)];
      } else {
        ParseEnd(contents, lineStart, parsed);
      }
      lines := parsed;
      preferredEnding := if preferred.Some? then preferred.value else Lf;
    }

    method LineTexts() returns (texts: seq<string>)
      ensures texts == Texts(lines)
    {
      texts := [];
      for i := 0 to |lines|
        invariant texts == Texts(lines)[..i]
      {
        texts := texts + [lines[i].text];
      }
    }

    /** The forward rebuild: walks the old lines once, copying what no edit removes. */
    method ApplyReplacements(replacements: seq<Replacement>)
      requires Ordered(replacements, 0)
      modifies this
      ensures preferredEnding == old(preferredEnding)
      ensures Ordered(LineEdits(replacements, preferredEnding), 0)
      ensures lines == Terminate(Splice(old(lines), LineEdits(replacements, preferredEnding), 0), preferredEnding)
    {
      hide SplicedUpTo, Splice, Ordered, LineEdits, Inserted;
      ghost var edits := LineEdits(replacements, preferredEnding);
      LineEditsOrdered(replacements, preferredEnding, 0);
      SpliceStart(lines, edits);
      var source := lines;
      var position: nat, sourceIndex: nat := 0, 0;
      var newLines: seq<SourceLine> := [];
      for k := 0 to |replacements|
        invariant position == Min(sourceIndex, |source|)
        invariant SplicedUpTo(source, edits, k, sourceIndex, newLines)
        invariant preferredEnding == old(preferredEnding)
      {
        var r := replacements[k];
        SpliceStep(source, edits, k, sourceIndex, newLines);
        var copied := Min(position + (r.start - sourceIndex), |source|);
        newLines := newLines + (source[position..copied] + Inserted(r.newLines, preferredEnding));
        position := Min(copied + r.oldLen, |source|);
        sourceIndex := r.start + r.oldLen;
      }
      SpliceEnd(source, edits, sourceIndex, newLines);
      newLines := newLines + source[position..];
      lines := newLines;
      FillEndings();
    }

    method FillEndings()
      modifies this`lines
      ensures lines == Terminate(old(lines), preferredEnding)
    {
      for i := 0 to |lines|
        invariant |lines| == |old(lines)|
        invariant lines[..i] == Terminate(old(lines), preferredEnding)[..i]
        invariant lines[i..] == old(lines)[i..]
      {
        assert lines[i] == old(lines)[i];
        if lines[i].ending.None? {
          lines := lines[i := lines[i].(ending := Some(preferredEnding))];
        }
      }
    }

    method IntoContents() returns (contents: string)
      ensures contents == Render(lines)
    {
      contents := "";
      for i := 0 to |lines|
        invariant contents == Render(lines[..i])
      {
        RenderSnoc(lines, i);
        hide Render;
        contents := contents + lines[i].text;
        if lines[i].ending.Some? {
          contents := contents + lines[i].ending.value.AsStr();
        }
      }
      assert lines[..|lines|] == lines;
    }
  }
}
