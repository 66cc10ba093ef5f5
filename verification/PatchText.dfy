/** Parsing a whole patch text (parser.rs): boundary checks, then one streaming run. */
module PatchText {
  import opened Text
  import Patch
  import opened StreamingParser
  import opened ParserRuns

  datatype ParseMode = Strict | Lenient

  datatype ParsedPatch = ParsedPatch(hunks: seq<Patch.Hunk>, patch: string, environmentId: Option<string>)

  /** `str::lines`: every terminated line without its LF or CRLF, then a non-empty rest. */
  function Lines(s: string): seq<string> {
    var pieces := SplitLf(s);
    var rest := pieces[|pieces| - 1];
    StripCrs(pieces[..|pieces| - 1]) + if rest == "" then [] else [rest]
  }

  function StrictBoundaries(lines: seq<string>): Result<seq<string>, ParseError> {
    if lines != [] && Trim(lines[0]) == BEGIN_PATCH && Trim(lines[|lines| - 1]) == END_PATCH then Ok(lines)
    else Err(InvalidPatch)
  }

  predicate IsHeredocStart(line: string) {
    line == "<<EOF" || line == "<<'EOF'" || line == "<<\"EOF\""
  }

  predicate EndsWithEof(line: string) {
    |line| >= 3 && line[|line| - 3..] == "EOF"
  }

  function LenientBoundaries(lines: seq<string>): Result<seq<string>, ParseError> {
    var strict := StrictBoundaries(lines);
    if strict.Ok? then strict
    else if |lines| >= 4 && IsHeredocStart(lines[0]) && EndsWithEof(lines[|lines| - 1]) then
      StrictBoundaries(lines[1..|lines| - 1])
    else strict
  }

  function Boundaries(lines: seq<string>, mode: ParseMode): Result<seq<string>, ParseError> {
    if mode.Strict? then StrictBoundaries(lines) else LenientBoundaries(lines)
  }

  /** One push of the joined lines, then the finish. */
  function Streamed(lines: seq<string>): Result<ParsedPatch, ParseError> {
    var text := JoinLf(lines);
    var fed := Feed(Snapshot("", START), text);
    if fed.error.Some? then Err(fed.error.value)
    else
      var done := Finished(fed.at);
      if done.error.Some? then Err(done.error.value)
      else Ok(ParsedPatch(done.at.state.hunks, text, done.at.state.environmentId))
  }

  function Parsed(patch: string, mode: ParseMode): Result<ParsedPatch, ParseError> {
    var lines :- Boundaries(Lines(Trim(patch)), mode);
    Streamed(lines)
  }

  method ParsePatchText(patch: string, mode: ParseMode) returns (r: Result<ParsedPatch, ParseError>)
    ensures r == Parsed(patch, mode)
  {
    hide Feed, Finished, Lines, Trim, Boundaries, JoinLf;
    var lines := Boundaries(Lines(Trim(patch)), mode);
    if lines.Err? {
      return Err(lines.error);
    }
    var text := JoinLf(lines.value);
    var parser := new StreamingPatchParser();
    var pushed := parser.PushDelta(text);
    if pushed.Err? {
      return Err(pushed.error);
    }
    var finished := parser.Finish();
    if finished.Err? {
      return Err(finished.error);
    }
    return Ok(ParsedPatch(finished.value, text, parser.environmentId));
  }

  /** Whatever text was parsed: all hunks are valid and complete. */
  lemma ParsedIsComplete(patch: string, mode: ParseMode)
    ensures var r := Parsed(patch, mode);
      r.Ok? ==> AllComplete(r.value.hunks)
  {
    hide Feed, Finished, Lines, Trim, Boundaries, JoinLf, Valid, AllComplete, Grows;
    var lines := Boundaries(Lines(Trim(patch)), mode);
    if lines.Ok? {
      StartIsValid();
      RunsKeep(Snapshot("", START), JoinLf(lines.value));
      FinishedIsComplete(Feed(Snapshot("", START), JoinLf(lines.value)).at);
    }
  }

  // ---------------------------------------------------------------- the heredoc wrapping

  function Heredoc(start: string, text: string): string {
    start + "\n" + text + "\nEOF"
  }

  lemma {:induction false} StripCrsConcat(a: seq<string>, b: seq<string>)
    ensures StripCrs(a + b) == StripCrs(a) + StripCrs(b)
  {
    if a == [] {
      assert a + b == b;
    } else {
      assert (a + b)[1..] == a[1..] + b;
      StripCrsConcat(a[1..], b);
    }
  }

  lemma LastIsKept(s: string)
    requires s != "" && s[|s| - 1] != '\n' && s[|s| - 1] != '\r'
    ensures var pieces := SplitLf(s);
      pieces[|pieces| - 1] != "" && StripCr(pieces[|pieces| - 1]) == pieces[|pieces| - 1]
  {
    hide SplitLf, JoinLf;
    JoinSplit(s);
    LastOfJoin(SplitLf(s));
  }

  lemma {:induction false} LastOfJoin(pieces: seq<string>)
    requires pieces != []
    ensures var s, last := JoinLf(pieces), pieces[|pieces| - 1];
      if last == "" then s == "" || s[|s| - 1] == '\n'
      else s != "" && s[|s| - 1] == last[|last| - 1]
  {
    if |pieces| > 1 {
      LastOfJoin(pieces[1..]);
    }
  }

  /** The lines of a text that ends in no line break, all stripped alike. */
  lemma LinesOfTrimmed(s: string)
    requires s != "" && RightTrimmed(s)
    ensures Lines(s) == StripCrs(SplitLf(s))
  {
    hide SplitLf, StripCr;
    LastIsKept(s);
    var pieces := SplitLf(s);
    assert pieces == pieces[..|pieces| - 1] + [pieces[|pieces| - 1]];
    StripCrsConcat(pieces[..|pieces| - 1], [pieces[|pieces| - 1]]);
  }

  lemma HeredocIsTrimmed(start: string, text: string)
    requires IsHeredocStart(start)
    ensures Trim(Heredoc(start, text)) == Heredoc(start, text) && RightTrimmed(Heredoc(start, text))
  {
    var s := Heredoc(start, text);
    assert s[0] == '<' && s[|s| - 1] == 'F';
    hide Heredoc, TrimEnd, TrimStart;
    TrimKeeps(s);
  }

  lemma PlainPiece(s: string)
    requires NoLf(s) && (s == "" || s[|s| - 1] != '\r')
    ensures SplitLf(s) == [s] && StripCrs([s]) == [s]
  {
    SplitLfOfPlain(s);
    assert [s][1..] == [];
  }

  lemma HeredocLines(start: string, text: string)
    requires IsHeredocStart(start)
    ensures Lines(Heredoc(start, text)) == [start] + StripCrs(SplitLf(text)) + ["EOF"]
  {
    hide SplitLf, StripCr, Lines, StripCrs;
    HeredocIsTrimmed(start, text);
    LinesOfTrimmed(Heredoc(start, text));
    assert Heredoc(start, text) == start + "\n" + text + "\n" + "EOF";
    SplitConcat(start + "\n" + text, "EOF");
    SplitConcat(start, text);
    PlainPiece("EOF");
    PlainPiece(start);
    StripCrsConcat(SplitLf(start) + SplitLf(text), SplitLf("EOF"));
    StripCrsConcat(SplitLf(start), SplitLf(text));
  }

  lemma HeredocStartIsNoMarker(start: string)
    requires IsHeredocStart(start)
    ensures Trim(start) != BEGIN_PATCH && EndsWithEof("EOF")
  {
    assert start[0] == '<';
    TrimKeeps(start);
  }

  /** A heredoc wrapping is refused by the strict mode; the lenient mode checks what is inside. */
  lemma HeredocBoundaries(start: string, text: string)
    requires IsHeredocStart(start)
    ensures Parsed(Heredoc(start, text), Strict) == Err(InvalidPatch)
    ensures var inner := StripCrs(SplitLf(text));
      Parsed(Heredoc(start, text), Lenient)
      == if StrictBoundaries(inner).Err? then Err(InvalidPatch) else Streamed(inner)
  {
    hide SplitLf, StripCrs, Lines, Trim, Streamed, Heredoc;
    HeredocIsTrimmed(start, text);
    HeredocLines(start, text);
    HeredocStartIsNoMarker(start);
    var inner := StripCrs(SplitLf(text));
    var lines := [start] + inner + ["EOF"];
    assert lines[1..|lines| - 1] == inner;
    OneLineIsNoPatch(inner);
  }

  lemma OneLineIsNoPatch(lines: seq<string>)
    ensures |lines| < 2 ==> StrictBoundaries(lines).Err?
  {
    assert BEGIN_PATCH[4] != END_PATCH[4];
  }

  /** The wrapping changes nothing for a text without outer whitespace ... */
  lemma HeredocParsesAsInner(start: string, text: string)
    requires IsHeredocStart(start) && RightTrimmed(text) && (text == "" || !IsWhitespace(text[0]))
    ensures Parsed(Heredoc(start, text), Lenient) == Parsed(text, Strict)
  {
    hide SplitLf, StripCrs, Lines, Streamed, Heredoc, TrimEnd, TrimStart, IsWhitespace;
    HeredocBoundaries(start, text);
    TrimKeeps(text);
    if text != "" {
      LinesOfTrimmed(text);
    } else {
      EmptyTextIsNoPatch();
    }
  }

  lemma EmptyTextIsNoPatch()
    ensures StrictBoundaries(Lines("")).Err? && StrictBoundaries(StripCrs(SplitLf(""))).Err?
  {
    assert SplitLf("") == [""] && StripCrs([""]) == [""];
  }

  /** ... but the inside is not trimmed: a blank first line parses plainly and fails when wrapped. */
  lemma HeredocKeepsOuterBlanks(start: string, text: string, mode: ParseMode)
    requires IsHeredocStart(start)
    ensures Parsed("\n" + text, mode) == Parsed(text, mode)
    ensures Parsed(Heredoc(start, "\n" + text), Lenient) == Err(InvalidPatch)
  {
    assert IsWhitespace('\n');
    hide *;
    TrimDropsLeading('\n', text);
    ParsedByTrim("\n" + text, text, mode);
    HeredocBoundaries(start, "\n" + text);
    BlankFirstLine(text);
  }

  lemma ParsedByTrim(a: string, b: string, mode: ParseMode)
    requires Trim(a) == Trim(b)
    ensures Parsed(a, mode) == Parsed(b, mode)
  {
    hide Trim, Lines, Boundaries, Streamed;
  }

  lemma {:induction false} TrimDropsLeading(blank: char, text: string)
    requires IsWhitespace(blank)
    ensures Trim([blank] + text) == Trim(text)
    decreases |text|
  {
    hide IsWhitespace;
    var s := [blank] + text;
    if text == "" {
      assert s[..0] == "";
      assert TrimEnd(s) == "";
    } else if IsWhitespace(text[|text| - 1]) {
      assert s[..|s| - 1] == [blank] + text[..|text| - 1];
      assert TrimEnd(s) == TrimEnd([blank] + text[..|text| - 1]);
      assert TrimEnd(text) == TrimEnd(text[..|text| - 1]);
      hide TrimEnd, TrimStart;
      TrimDropsLeading(blank, text[..|text| - 1]);
    } else {
      LeadingBlankOnly(blank, text);
    }
  }

  lemma LeadingBlankOnly(blank: char, text: string)
    requires IsWhitespace(blank) && text != "" && !IsWhitespace(text[|text| - 1])
    ensures Trim([blank] + text) == Trim(text)
  {
    hide IsWhitespace, TrimEnd;
    var s := [blank] + text;
    assert s[|s| - 1] == text[|text| - 1] && s[1..] == text;
    TrimEndKeeps(s);
    TrimEndKeeps(text);
  }

  lemma BlankFirstLine(text: string)
    ensures StrictBoundaries(StripCrs(SplitLf("\n" + text))).Err?
  {
    assert ("\n" + text)[1..] == text;
    assert SplitLf("\n" + text) == [""] + SplitLf(text);
    hide SplitLf;
    assert ([""] + SplitLf(text))[0] == "";
    assert StripCrs([""] + SplitLf(text))[0] == "";
    assert Trim("") == "";
  }

  // ---------------------------------------------------------------- a patch that never began

  lemma MarkersAreTrimmed()
    ensures Trim(BEGIN_PATCH) == BEGIN_PATCH && Trim(END_PATCH) == END_PATCH
    ensures BEGIN_PATCH[0] == '*' && END_PATCH[|END_PATCH| - 1] == 'h'
  {
    assert BEGIN_PATCH[0] == '*' && BEGIN_PATCH[|BEGIN_PATCH| - 1] == 'h';
    assert END_PATCH[0] == '*' && END_PATCH[|END_PATCH| - 1] == 'h';
    hide TrimEnd, TrimStart;
    TrimKeeps(BEGIN_PATCH);
    TrimKeeps(END_PATCH);
  }

  /** A line feed never leaves the parser waiting for the first line. */
  lemma LineLeavesStart(s: State, line: string)
    ensures var fed := FeedLine(s, line);
      fed.error.None? ==> !fed.at.state.mode.NotStarted?
  {
    hide HeaderOf, CheckNotEmpty, AfterUpdateLine, Trim, TrimEnd;
    CheckKeepsMode(s.(lineNumber := s.lineNumber + 1));
  }

  lemma CheckKeepsMode(s: State)
    ensures CheckNotEmpty(s).Ok? ==> CheckNotEmpty(s).value == s
  {
  }

  lemma {:induction false} StartedStays(p: Snapshot, text: string)
    requires !p.state.mode.NotStarted?
    ensures var fed := Feed(p, text);
      fed.error.None? ==> !fed.at.state.mode.NotStarted?
    decreases |text|
  {
    hide FeedLine;
    if text != "" {
      LineLeavesStart(p.state, StripCr(p.buffer));
      var fed := FeedChar(p, text[0]);
      if fed.error.None? {
        StartedStays(fed.at, text[1..]);
      }
    }
  }

  /** The parser still waits for the first line exactly while it has seen no line feed. */
  lemma {:induction false} UnstartedIff(p: Snapshot, text: string)
    requires p.state.mode.NotStarted?
    ensures var fed := Feed(p, text);
      fed.error.None? && fed.at.state.mode.NotStarted? <==> NoLf(text)
    ensures NoLf(text) ==> Feed(p, text) == Fed(p.(buffer := p.buffer + text), None)
    decreases |text|
  {
    hide FeedLine;
    if text == "" {
      assert p.buffer + text == p.buffer;
    } else {
      var fed := FeedChar(p, text[0]);
      if text[0] == '\n' {
        LineLeavesStart(p.state, StripCr(p.buffer));
        if fed.error.None? {
          StartedStays(fed.at, text[1..]);
        }
      } else {
        UnstartedIff(fed.at, text[1..]);
        assert p.buffer + [text[0]] + text[1..] == p.buffer + text;
      }
    }
  }

  lemma FinishUnstarted(text: string)
    ensures Finished(Snapshot(text, START)).error.None? <==> Trim(text) == END_PATCH
  {
    hide Trim;
    MarkersAreTrimmed();
    if text == "" {
      assert Trim("") == "" by { TrimKeeps(""); }
    }
    assert BEGIN_PATCH[4] != END_PATCH[4];
  }

  /** A text finishes the streaming parser although no patch has begun, if and only if it is one
      unterminated line that reads as the end marker. */
  lemma UnstartedFinishIff(text: string)
    ensures var fed := Feed(Snapshot("", START), text);
      fed.error.None? && fed.at.state.mode.NotStarted? && Finished(fed.at).error.None?
      <==> NoLf(text) && Trim(text) == END_PATCH
  {
    UnstartedIff(Snapshot("", START), text);
    assert "" + text == text;
    hide Feed, Finished, Trim, NoLf;
    FinishUnstarted(text);
  }

  /** The whole-text entry point refuses all of these. */
  lemma UnstartedIsRefused(text: string, mode: ParseMode)
    requires NoLf(text) && Trim(text) == END_PATCH
    ensures Parsed(text, mode) == Err(InvalidPatch)
  {
    MarkersAreTrimmed();
    hide Trim;
    assert END_PATCH[|END_PATCH| - 1] == 'h';
    EndMarkerLines();
    hide Lines, Streamed;
    OneLineIsNoPatch([END_PATCH]);
  }

  lemma EndMarkerLines()
    ensures Lines(END_PATCH) == [END_PATCH]
  {
    assert NoLf(END_PATCH);
    hide SplitLf;
    SplitLfOfPlain(END_PATCH);
    assert [END_PATCH][..0] == [];
  }

  // ---------------------------------------------------------------- exactly when wrapping changes nothing

  /** Outer whitespace only touches the first and the last line, where these are not blank. */
  lemma TrimOfPieces(first: string, middle: seq<string>, last: string)
    requires NoLf(first) && NoLf(last) && forall i :: 0 <= i < |middle| ==> NoLf(middle[i])
    requires TrimStart(first) != "" && TrimEnd(last) != ""
    ensures Trim(JoinLf([first] + middle + [last])) == JoinLf([TrimStart(first)] + middle + [TrimEnd(last)])
  {
    hide JoinLf, TrimEnd, TrimStart, NoLf;
    var front := JoinLf([first] + middle);
    JoinConcat([first] + middle, [last]);
    JoinConcat([first] + middle, [TrimEnd(last)]);
    JoinConcat([first], middle + [TrimEnd(last)]);
    JoinConcat([TrimStart(first)], middle + [TrimEnd(last)]);
    JoinOne(first);
    JoinOne(last);
    JoinOne(TrimStart(first));
    JoinOne(TrimEnd(last));
    Associative([first], middle, [TrimEnd(last)]);
    Associative([TrimStart(first)], middle, [TrimEnd(last)]);
    TrimEndBehind(front + "\n", last);
    var rest := JoinLf(middle + [TrimEnd(last)]);
    Associative(first, "\n", rest);
    Associative(TrimStart(first), "\n", rest);
    TrimStartBefore(first, "\n" + rest);
  }

  lemma JoinOne(line: string)
    ensures JoinLf([line]) == line
  {
  }

  lemma {:induction false} TrimEndBehind(front: string, last: string)
    requires TrimEnd(last) != ""
    ensures TrimEnd(front + last) == front + TrimEnd(last)
    decreases |last|
  {
    hide IsWhitespace;
    var s := front + last;
    if last != "" && IsWhitespace(last[|last| - 1]) {
      assert s[..|s| - 1] == front + last[..|last| - 1];
      TrimEndBehind(front, last[..|last| - 1]);
    }
  }

  lemma {:induction false} TrimStartBefore(first: string, rest: string)
    requires TrimStart(first) != ""
    ensures TrimStart(first + rest) == TrimStart(first) + rest
    decreases |first|
  {
    hide IsWhitespace, TrimStart;
    TrimStartStep(first);
    TrimStartStep(first + rest);
    assert (first + rest)[0] == first[0];
    if IsWhitespace(first[0]) {
      assert (first + rest)[1..] == first[1..] + rest;
      TrimStartBefore(first[1..], rest);
    }
  }

  /** What streaming makes of the lines between two marker lines. */
  function Between(middle: seq<string>, last: string): Fed {
    var fed := FeedLines(START.(mode := StartedPatch, lineNumber := 1), StripCrs(middle));
    if fed.error.Some? then fed else Finished(Snapshot(last, fed.at.state))
  }

  lemma StreamedBetween(first: string, middle: seq<string>, last: string)
    requires NoLf(first) && NoLf(last) && forall i :: 0 <= i < |middle| ==> NoLf(middle[i])
    requires Trim(StripCr(first)) == BEGIN_PATCH
    ensures var r, b := Streamed([first] + middle + [last]), Between(middle, last);
      if b.error.Some? then r == Err(b.error.value)
      else r == Ok(ParsedPatch(b.at.state.hunks, JoinLf([first] + middle + [last]), b.at.state.environmentId))
  {
    hide Feed, Finished, FeedLines, StripCr, Trim, JoinLf, StripCrs;
    var lines := [first] + middle + [last];
    assert forall i :: 0 <= i < |lines| ==> NoLf(lines[i]) by { hide NoLf; }
    hide NoLf;
    FeedPieces(START, lines);
    assert lines[..|lines| - 1] == [first] + middle;
    StripCrsHead(first, middle);
    FirstLineStarts(StripCr(first), StripCrs(middle));
  }

  lemma StripCrsHead(first: string, rest: seq<string>)
    ensures StripCrs([first] + rest) == [StripCr(first)] + StripCrs(rest)
  {
    hide StripCr;
    assert ([first] + rest)[1..] == rest;
  }

  lemma FirstLineStarts(first: string, rest: seq<string>)
    requires Trim(first) == BEGIN_PATCH
    ensures FeedLines(START, [first] + rest) == FeedLines(START.(mode := StartedPatch, lineNumber := 1), rest)
  {
    hide Trim;
    assert ([first] + rest)[1..] == rest;
    assert FeedLine(START, first) == Fed(Snapshot("", START.(mode := StartedPatch, lineNumber := 1)), None);
    hide FeedLine;
  }

  lemma FinishedByTrim(s: State, a: string, b: string)
    requires Trim(a) == END_PATCH && Trim(b) == END_PATCH
    ensures Finished(Snapshot(a, s)) == Finished(Snapshot(b, s))
  {
    hide Trim, CheckNotEmpty, FeedLine;
    TrimKeeps("");
  }

  lemma TrimEndTwice(s: string)
    ensures Trim(TrimEnd(s)) == Trim(s)
  {
    TrimEndKeeps(TrimEnd(s));
  }

  lemma TrimStartStep(s: string)
    ensures TrimStart(s) == if s != "" && IsWhitespace(s[0]) then TrimStart(s[1..]) else s
  {
    hide IsWhitespace;
  }

  lemma {:induction false} TrimStartTwice(s: string)
    ensures Trim(TrimStart(s)) == Trim(s)
    decreases |s|
  {
    hide IsWhitespace, Trim, TrimEnd, TrimStart;
    TrimStartStep(s);
    if s != "" && IsWhitespace(s[0]) {
      assert [s[0]] + s[1..] == s;
      TrimStartTwice(s[1..]);
      TrimDropsLeading(s[0], s[1..]);
    }
  }

  lemma StripCrTrims(line: string)
    ensures Trim(StripCr(line)) == Trim(line)
  {
    if line != "" && line[|line| - 1] == '\r' {
      assert IsWhitespace('\r');
      assert TrimEnd(line) == TrimEnd(line[..|line| - 1]);
    }
  }

  lemma BlankTrims(line: string)
    ensures TrimStart(line) == "" ==> Trim(line) == ""
    ensures TrimEnd(line) == "" ==> Trim(line) == ""
  {
    TrimStartTwice(line);
  }

  lemma MarkersAreNotBlank()
    ensures BEGIN_PATCH != "" && END_PATCH != ""
  {
  }

  /** Lines of a text whose first and last line are, but for whitespace, the markers. */
  lemma LinesOfMarked(text: string, first: string, middle: seq<string>, last: string)
    requires SplitLf(text) == [first] + middle + [last]
    requires Trim(first) == BEGIN_PATCH && Trim(last) == END_PATCH
    ensures Lines(Trim(text)) == [StripCr(TrimStart(first))] + StripCrs(middle) + [TrimEnd(last)]
  {
    hide SplitLf, JoinLf, StripCr, StripCrs, TrimEnd, TrimStart, Trim, NoLf;
    MarkersAreNotBlank();
    BlankTrims(first);
    BlankTrims(last);
    JoinSplit(text);
    PiecesSplit(first, middle, last);
    TrimOfPieces(first, middle, last);
    var pieces := [TrimStart(first)] + middle + [TrimEnd(last)];
    TrimsHaveNoLf(first);
    TrimsHaveNoLf(last);
    SplitJoin(pieces);
    assert pieces[..|pieces| - 1] == [TrimStart(first)] + middle;
    StripCrsHead(TrimStart(first), middle);
  }

  lemma PiecesSplit(first: string, middle: seq<string>, last: string)
    requires forall i :: 0 <= i < |[first] + middle + [last]| ==> NoLf(([first] + middle + [last])[i])
    ensures NoLf(first) && NoLf(last) && forall i :: 0 <= i < |middle| ==> NoLf(middle[i])
  {
    hide NoLf;
    var pieces := [first] + middle + [last];
    assert pieces[0] == first && pieces[|middle| + 1] == last;
    forall i | 0 <= i < |middle|
      ensures NoLf(middle[i])
    {
      assert pieces[i + 1] == middle[i];
    }
  }

  lemma NoLfSlice(line: string, i: nat, j: nat)
    requires NoLf(line) && i <= j <= |line|
    ensures NoLf(line[i..j])
  {
  }

  lemma TrimStartHasNoLf(line: string)
    requires NoLf(line)
    ensures NoLf(TrimStart(line))
  {
    hide NoLf;
    var t := TrimStart(line);
    NoLfSlice(line, |line| - |t|, |line|);
    assert line[|line| - |t|..|line|] == t;
  }

  lemma TrimEndHasNoLf(line: string)
    requires NoLf(line)
    ensures NoLf(TrimEnd(line))
  {
    hide NoLf;
    var t := TrimEnd(line);
    NoLfSlice(line, 0, |t|);
    assert line[0..|t|] == t;
  }

  lemma StripCrHasNoLf(line: string)
    requires NoLf(line)
    ensures NoLf(StripCr(line))
  {
    hide NoLf;
    var t := StripCr(line);
    NoLfSlice(line, 0, |t|);
    assert line[0..|t|] == t;
  }

  lemma TrimsHaveNoLf(line: string)
    requires NoLf(line)
    ensures NoLf(TrimStart(line)) && NoLf(TrimEnd(line)) && NoLf(StripCr(line)) && NoLf(StripCr(TrimStart(line)))
  {
    hide NoLf, TrimStart, TrimEnd, StripCr;
    TrimStartHasNoLf(line);
    TrimEndHasNoLf(line);
    StripCrHasNoLf(line);
    StripCrHasNoLf(TrimStart(line));
  }

  /** The same hunks and environment id, or the same error; the text parsed may differ. */
  predicate SameOutcome(a: Result<ParsedPatch, ParseError>, b: Result<ParsedPatch, ParseError>) {
    match a
    case Ok(p) => b.Ok? && p.hunks == b.value.hunks && p.environmentId == b.value.environmentId
    case Err(e) => b == Err(e)
  }

  lemma StreamedAlike(first: string, other: string, middle: seq<string>, last: string, final: string)
    requires NoLf(first) && NoLf(other) && NoLf(last) && NoLf(final)
    requires forall i :: 0 <= i < |middle| ==> NoLf(middle[i])
    requires Trim(StripCr(first)) == BEGIN_PATCH && Trim(StripCr(other)) == BEGIN_PATCH
    requires Trim(last) == END_PATCH && Trim(final) == END_PATCH
    ensures SameOutcome(Streamed([first] + middle + [last]), Streamed([other] + middle + [final]))
  {
    hide NoLf, Trim, StripCr, Streamed, Finished, FeedLines, StripCrs;
    StreamedBetween(first, middle, last);
    StreamedBetween(other, middle, final);
    var fed := FeedLines(START.(mode := StartedPatch, lineNumber := 1), StripCrs(middle));
    FinishedByTrim(fed.at.state, last, final);
  }

  lemma StripCrsLast(front: seq<string>, last: string)
    ensures StripCrs(front + [last]) == StripCrs(front) + [StripCr(last)]
  {
    hide StripCr;
    StripCrsConcat(front, [last]);
    assert [last][1..] == [];
  }

  lemma {:induction false} StrippedHaveNoLf(lines: seq<string>)
    requires forall i :: 0 <= i < |lines| ==> NoLf(lines[i])
    ensures forall i :: 0 <= i < |StripCrs(lines)| ==> NoLf(StripCrs(lines)[i])
  {
    hide NoLf, StripCr;
    if lines != [] {
      StripCrHasNoLf(lines[0]);
      StrippedHaveNoLf(lines[1..]);
    }
  }

  lemma MarkedParseAlike(text: string, first: string, middle: seq<string>, last: string)
    requires SplitLf(text) == [first] + middle + [last]
    requires Trim(first) == BEGIN_PATCH && Trim(last) == END_PATCH
    ensures SameOutcome(Parsed(text, Strict), Streamed(StripCrs([first] + middle + [last])))
  {
    hide SplitLf, JoinLf, StripCr, StripCrs, TrimEnd, TrimStart, Trim, NoLf, Streamed, Lines, SameOutcome;
    LinesOfMarked(text, first, middle, last);
    JoinSplit(text);
    PiecesSplit(first, middle, last);
    StrippedHaveNoLf(middle);
    TrimsHaveNoLf(first);
    TrimsHaveNoLf(last);
    TrimStartTwice(first);
    TrimEndTwice(last);
    StripCrTrims(first);
    StripCrTrims(StripCr(first));
    StripCrTrims(TrimStart(first));
    StripCrTrims(StripCr(TrimStart(first)));
    StripCrTrims(last);
    StripTwiceNoLf(first);
    StripCrsLast([first] + middle, last);
    StripCrsHead(first, middle);
    StreamedAlike(StripCr(TrimStart(first)), StripCr(first), StripCrs(middle), TrimEnd(last), StripCr(last));
  }

  lemma StripTwiceNoLf(line: string)
    requires NoLf(line)
    ensures NoLf(StripCr(StripCr(line))) && NoLf(StripCr(StripCr(TrimStart(line))))
  {
    TrimsHaveNoLf(line);
    TrimsHaveNoLf(StripCr(line));
    TrimsHaveNoLf(TrimStart(line));
    TrimsHaveNoLf(StripCr(TrimStart(line)));
  }

  /** Wrapping a text that parses plainly gives the same hunks and environment id, if and only if its
      own first and last line are the markers, whitespace aside. */
  lemma HeredocSameIff(start: string, text: string)
    requires IsHeredocStart(start)
    ensures Parsed(text, Strict).Ok? ==>
      (SameOutcome(Parsed(text, Strict), Parsed(Heredoc(start, text), Lenient))
       <==> StrictBoundaries(StripCrs(SplitLf(text))).Ok?)
  {
    hide Parsed, StripCrs, SplitLf, Streamed, Trim, Heredoc;
    HeredocBoundaries(start, text);
    var pieces := SplitLf(text);
    var inner := StripCrs(pieces);
    if StrictBoundaries(inner).Ok? {
      OneLineIsNoPatch(inner);
      MarkedPieces(pieces);
      var first, middle, last := pieces[0], pieces[1..|pieces| - 1], pieces[|pieces| - 1];
      assert pieces == [first] + middle + [last];
      MarkedParseAlike(text, first, middle, last);
    }
  }

  lemma MarkedPieces(pieces: seq<string>)
    requires |StripCrs(pieces)| >= 2 && StrictBoundaries(StripCrs(pieces)).Ok?
    ensures |pieces| >= 2 && Trim(pieces[0]) == BEGIN_PATCH && Trim(pieces[|pieces| - 1]) == END_PATCH
  {
    hide Trim, StripCr;
    StrippedEnds(pieces);
    StripCrTrims(pieces[0]);
    StripCrTrims(pieces[|pieces| - 1]);
  }

  lemma {:induction false} StrippedEnds(pieces: seq<string>)
    ensures |StripCrs(pieces)| == |pieces|
    ensures pieces != [] ==>
      StripCrs(pieces)[0] == StripCr(pieces[0]) && StripCrs(pieces)[|pieces| - 1] == StripCr(pieces[|pieces| - 1])
  {
    hide StripCr;
    if pieces != [] {
      StrippedEnds(pieces[1..]);
    }
  }
}
