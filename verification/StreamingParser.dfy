/** The streaming patch parser (streaming_parser.rs): its state machine as functions on
    values, and the object that runs it character by character. */
module StreamingParser {
  import opened Text
  import opened Patch

  const BEGIN_PATCH := "*** Begin Patch"
  const END_PATCH := "*** End Patch"
  const ADD_FILE := "*** Add File: "
  const DELETE_FILE := "*** Delete File: "
  const UPDATE_FILE := "*** Update File: "
  const MOVE_TO := "*** Move to: "
  const END_OF_FILE := "*** End of File"
  const CHANGE_CONTEXT := "@@ "
  const EMPTY_CHANGE_CONTEXT := "@@"
  const ENVIRONMENT_ID := "*** Environment ID:"

  /** The two error kinds; of the message only the line number is kept. */
  datatype ParseError = InvalidPatch | InvalidHunk(lineNumber: nat)

  datatype Mode =
    | NotStarted
    | StartedPatch
    | InAddFile
    | InDeleteFile
    | InUpdateFile(hunkLineNumber: nat)
    | EndedPatch

  datatype State = State(mode: Mode, hunks: seq<Hunk>, environmentId: Option<string>, lineNumber: nat)
  {
    function Open(hunk: Hunk, next: Mode): State {
      this.(hunks := hunks + [hunk], mode := next)
    }

    function WithLast(hunk: Hunk): State
      requires hunks != []
    {
      this.(hunks := hunks[..|hunks| - 1] + [hunk])
    }
  }

  const START := State(NotStarted, [], None, 0)

  // ---------------------------------------------------------------- reading one line

  function StripCr(line: string): string {
    if line != "" && line[|line| - 1] == '\r' then line[..|line| - 1] else line
  }

  function StripCrs(lines: seq<string>): seq<string> {
    if lines == [] then [] else [StripCr(lines[0])] + StripCrs(lines[1..])
  }

  datatype Header =
    | EnvironmentId(text: string)
    | EndOfPatch
    | Add(path: string)
    | Delete(path: string)
    | Update(path: string)
    | NotAHeader

  /** Only before the first hunk can a line give the environment id. */
  function HeaderOf(trimmed: string, beforeHunks: bool): Header {
    if beforeHunks && StartsWith(trimmed, ENVIRONMENT_ID) then EnvironmentId(trimmed[|ENVIRONMENT_ID|..])
    else if trimmed == END_PATCH then EndOfPatch
    else if StartsWith(trimmed, ADD_FILE) then Add(trimmed[|ADD_FILE|..])
    else if StartsWith(trimmed, DELETE_FILE) then Delete(trimmed[|DELETE_FILE|..])
    else if StartsWith(trimmed, UPDATE_FILE) then Update(trimmed[|UPDATE_FILE|..])
    else NotAHeader
  }

  datatype Marker = MoveTo(path: string) | Context(context: Option<string>) | EndOfFile | NotAMarker

  function MarkerOf(updateLine: string): Marker {
    if StartsWith(updateLine, MOVE_TO) then MoveTo(updateLine[|MOVE_TO|..])
    else if updateLine == EMPTY_CHANGE_CONTEXT then Context(None)
    else if StartsWith(updateLine, CHANGE_CONTEXT) then Context(Some(updateLine[|CHANGE_CONTEXT|..]))
    else if updateLine == END_OF_FILE then EndOfFile
    else NotAMarker
  }

  /** The hunk in progress may not be left empty, nor its last chunk. */
  function CheckNotEmpty(s: State): Result<State, ParseError> {
    if s.hunks == [] || !s.hunks[|s.hunks| - 1].UpdateFile? then Ok(s)
    else
      var chunks := s.hunks[|s.hunks| - 1].chunks;
      if chunks == [] && s.mode.InUpdateFile? then Err(InvalidHunk(s.mode.hunkLineNumber))
      else if chunks != [] && chunks[|chunks| - 1].IsEmpty() then Err(InvalidHunk(s.lineNumber))
      else Ok(s)
  }

  /** What a header line does, or None when the line is none. */
  function AfterHeader(s: State, trimmed: string): Result<Option<State>, ParseError> {
    match HeaderOf(trimmed, s.mode.StartedPatch?)
    case EnvironmentId(text) =>
      if s.environmentId.Some? || Trim(text) == "" then Err(InvalidPatch)
      else Ok(Some(s.(environmentId := Some(Trim(text)))))
    case EndOfPatch =>
      var checked :- CheckNotEmpty(s);
      Ok(Some(checked.(mode := EndedPatch)))
    case Add(path) =>
      var checked :- CheckNotEmpty(s);
      Ok(Some(checked.Open(AddFile(path, ""), InAddFile)))
    case Delete(path) =>
      var checked :- CheckNotEmpty(s);
      Ok(Some(checked.Open(DeleteFile(path), InDeleteFile)))
    case Update(path) =>
      var checked :- CheckNotEmpty(s);
      Ok(Some(checked.Open(UpdateFile(path, None, []), InUpdateFile(s.lineNumber))))
    case NotAHeader => Ok(None)
  }

  /** The last chunk, or a fresh one, changed as a diff line says; None for any other line. */
  function AfterDiffLine(chunks: seq<UpdateFileChunk>, line: string): Option<seq<UpdateFileChunk>> {
    var (front, chunk) := if chunks == [] then ([], EMPTY_CHUNK) else (chunks[..|chunks| - 1], chunks[|chunks| - 1]);
    if line == "" then Some(front + [chunk.PushContextLine("")])
    else if line[0] == ' ' then Some(front + [chunk.PushContextLine(line[1..])])
    else if line[0] == '+' then Some(front + [chunk.PushAdded(line[1..])])
    else if line[0] == '-' then Some(front + [chunk.PushRemoved(line[1..])])
    else None
  }

  /** What a line that is no header does to the update hunk in progress. */
  function AfterUpdateLine(hunk: Hunk, line: string, lineNumber: nat): Result<Hunk, ParseError>
    requires hunk.UpdateFile?
  {
    var updateLine := TrimEnd(line);
    var marker := MarkerOf(updateLine);
    var chunks := hunk.chunks;
    var ended := chunks != [] && chunks[|chunks| - 1].isEndOfFile;
    var pending := chunks != [] && chunks[|chunks| - 1].IsEmpty();
    if ended && updateLine == "" then Ok(hunk)
    else if ended && !marker.Context? then Err(InvalidHunk(lineNumber))
    else if marker.MoveTo? && chunks == [] && hunk.movePath.None? then
      Ok(hunk.(movePath := Some(marker.path)))
    else if marker.Context? then
      if pending then Err(InvalidHunk(lineNumber))
      else Ok(hunk.(chunks := chunks + [EMPTY_CHUNK.(changeContext := marker.context)]))
    else if marker.EndOfFile? then
      if pending then Err(InvalidHunk(lineNumber))
      else if chunks == [] then Ok(hunk)
      else Ok(hunk.(chunks := chunks[..|chunks| - 1] + [chunks[|chunks| - 1].(isEndOfFile := true)]))
    else
      match AfterDiffLine(chunks, line)
      case Some(changed) => Ok(hunk.(chunks := changed))
      case None => Err(InvalidHunk(lineNumber))
  }

  /** What a line that is no header does to the hunk in progress. */
  function AfterBodyLine(s: State, line: string): Result<State, ParseError> {
    if s.hunks == [] then Err(InvalidHunk(s.lineNumber))
    else
      var last := s.hunks[|s.hunks| - 1];
      if s.mode.InAddFile? && last.AddFile? && line != "" && line[0] == '+' then
        Ok(s.WithLast(last.(contents := last.contents + line[1..] + "\n")))
      else if s.mode.InUpdateFile? && last.UpdateFile? then
        var hunk :- AfterUpdateLine(last, line, s.lineNumber);
        Ok(s.WithLast(hunk))
      else Err(InvalidHunk(s.lineNumber))
  }

  function AfterLine(s: State, line: string): Result<State, ParseError> {
    match s.mode
    case NotStarted => if Trim(line) == BEGIN_PATCH then Ok(s.(mode := StartedPatch)) else Err(InvalidPatch)
    case EndedPatch => if Trim(line) == "" then Ok(s) else Err(InvalidPatch)
    case _ =>
      match AfterHeader(s, if s.mode.InUpdateFile? then TrimEnd(line) else Trim(line))
      case Err(e) => Err(e)
      case Ok(Some(next)) => Ok(next)
      case Ok(None) => AfterBodyLine(s, line)
  }

  // ---------------------------------------------------------------- reading text

  /** A parser between two characters: the unfinished line, and the state behind it. */
  datatype Snapshot = Snapshot(buffer: string, state: State)

  /** Where a call left the parser, and the error it stopped with. */
  datatype Fed = Fed(at: Snapshot, error: Option<ParseError>)

  function FeedLine(s: State, line: string): Fed {
    var numbered := s.(lineNumber := s.lineNumber + 1);
    match AfterLine(numbered, line)
    case Ok(next) => Fed(Snapshot("", next), None)
    case Err(e) => Fed(Snapshot("", numbered), Some(e))
  }

  function FeedChar(p: Snapshot, c: char): Fed {
    if c == '\n' then FeedLine(p.state, StripCr(p.buffer)) else Fed(p.(buffer := p.buffer + [c]), None)
  }

  function Feed(p: Snapshot, delta: string): Fed
    decreases |delta|
  {
    if delta == "" then Fed(p, None)
    else
      var fed := FeedChar(p, delta[0]);
      if fed.error.Some? then fed else Feed(fed.at, delta[1..])
  }

  /** An unterminated last line may be the end marker in any mode. */
  function FeedRest(p: Snapshot): Fed {
    if p.buffer == "" then Fed(p, None)
    else if Trim(p.buffer) == END_PATCH then
      var numbered := p.state.(lineNumber := p.state.lineNumber + 1);
      match CheckNotEmpty(numbered)
      case Ok(s) => Fed(Snapshot("", s.(mode := EndedPatch)), None)
      case Err(e) => Fed(Snapshot("", numbered), Some(e))
    else FeedLine(p.state, p.buffer)
  }

  function Finished(p: Snapshot): Fed {
    var fed := FeedRest(p);
    if fed.error.None? && !fed.at.state.mode.EndedPatch? then fed.(error := Some(InvalidPatch)) else fed
  }

  // ---------------------------------------------------------------- the object

  class StreamingPatchParser {
    var lineBuffer: string
    var mode: Mode
    var hunks: seq<Hunk>
    var environmentId: Option<string>
    var lineNumber: nat

    function View(): State
      reads this
    {
      State(mode, hunks, environmentId, lineNumber)
    }

    constructor ()
      ensures lineBuffer == "" && View() == START
    {
      lineBuffer, mode, hunks, environmentId, lineNumber := "", NotStarted, [], None, 0;
    }

    method EnsureUpdateHunkIsNotEmpty() returns (r: Option<ParseError>)
      ensures CheckNotEmpty(View()) == if r.None? then Ok(View()) else Err(r.value)
    {
      if hunks != [] && hunks[|hunks| - 1].UpdateFile? {
        var chunks := hunks[|hunks| - 1].chunks;
        if chunks == [] && mode.InUpdateFile? {
          return Some(InvalidHunk(mode.hunkLineNumber));
        }
        if chunks != [] && chunks[|chunks| - 1].IsEmpty() {
          return Some(InvalidHunk(lineNumber));
        }
      }
      return None;
    }

    method HandleHunkHeadersAndEndPatch(trimmed: string) returns (r: Result<bool, ParseError>)
      modifies this
      ensures lineBuffer == old(lineBuffer)
      ensures match AfterHeader(old(View()), trimmed)
        case Err(e) => r == Err(e) && View() == old(View())
        case Ok(None) => r == Ok(false) && View() == old(View())
        case Ok(Some(next)) => r == Ok(true) && View() == next
    {
      var header := HeaderOf(trimmed, mode.StartedPatch?);
      hide HeaderOf, Trim, CheckNotEmpty;
      if header.EnvironmentId? {
        if environmentId.Some? || Trim(header.text) == "" {
          return Err(InvalidPatch);
        }
        environmentId := Some(Trim(header.text));
        return Ok(true);
      }
      if header.NotAHeader? {
        return Ok(false);
      }
      var empty := EnsureUpdateHunkIsNotEmpty();
      if empty.Some? {
        return Err(empty.value);
      }
      if header.EndOfPatch? {
        mode := EndedPatch;
      } else if header.Add? {
        hunks := hunks + [AddFile(header.path, "")];
        mode := InAddFile;
      } else if header.Delete? {
        hunks := hunks + [DeleteFile(header.path)];
        mode := InDeleteFile;
      } else {
        hunks := hunks + [UpdateFile(header.path, None, [])];
        mode := InUpdateFile(lineNumber);
      }
      return Ok(true);
    }

    method ProcessLine(line: string) returns (r: Result<bool, ParseError>)
      modifies this
      ensures lineBuffer == old(lineBuffer)
      ensures match AfterLine(old(View()), line)
        case Err(e) => r == Err(e) && View() == old(View())
        case Ok(next) => r.Ok? && View() == next
    {
      hide AfterHeader, AfterUpdateLine, Trim, TrimEnd;
      if mode.NotStarted? {
        if Trim(line) == BEGIN_PATCH {
          mode := StartedPatch;
          return Ok(true);
        }
        return Err(InvalidPatch);
      }
      if mode.EndedPatch? {
        return if Trim(line) == "" then Ok(true) else Err(InvalidPatch);
      }
      var handled := HandleHunkHeadersAndEndPatch(if mode.InUpdateFile? then TrimEnd(line) else Trim(line));
      if handled.Err? || handled.value {
        return handled;
      }
      if hunks != [] {
        var last := hunks[|hunks| - 1];
        if mode.InAddFile? && last.AddFile? && line != "" && line[0] == '+' {
          hunks := hunks[..|hunks| - 1] + [last.(contents := last.contents + line[1..] + "\n")];
          return Ok(true);
        }
        if mode.InUpdateFile? && last.UpdateFile? {
          var changed := ProcessUpdateLine(last, line);
          if changed.Err? {
            return Err(changed.error);
          }
          hunks := hunks[..|hunks| - 1] + [changed.value];
          return Ok(true);
        }
      }
      return Err(InvalidHunk(lineNumber));
    }

    /** The update-hunk arm of the line dispatch. */
    method ProcessUpdateLine(hunk: Hunk, line: string) returns (r: Result<Hunk, ParseError>)
      requires hunk.UpdateFile?
      ensures r == AfterUpdateLine(hunk, line, lineNumber)
    {
      hide MarkerOf, TrimEnd, UpdateFileChunk.PushContextLine, UpdateFileChunk.PushAdded, UpdateFileChunk.PushRemoved;
      var updateLine := TrimEnd(line);
      var marker := MarkerOf(updateLine);
      var chunks := hunk.chunks;
      if chunks != [] && chunks[|chunks| - 1].isEndOfFile {
        if updateLine == "" {
          return Ok(hunk);
        }
        if !marker.Context? {
          return Err(InvalidHunk(lineNumber));
        }
      }
      if marker.MoveTo? && chunks == [] && hunk.movePath.None? {
        return Ok(hunk.(movePath := Some(marker.path)));
      }
      var pending := chunks != [] && chunks[|chunks| - 1].IsEmpty();
      if (marker.Context? || marker.EndOfFile?) && pending {
        return Err(InvalidHunk(lineNumber));
      }
      if marker.Context? {
        chunks := chunks + [EMPTY_CHUNK.(changeContext := marker.context)];
        return Ok(hunk.(chunks := chunks));
      }
      if marker.EndOfFile? {
        if chunks != [] {
          chunks := chunks[..|chunks| - 1] + [chunks[|chunks| - 1].(isEndOfFile := true)];
        }
        return Ok(hunk.(chunks := chunks));
      }
      if line != "" && line[0] != ' ' && line[0] != '+' && line[0] != '-' {
        return Err(InvalidHunk(lineNumber));
      }
      var front, chunk := [], EMPTY_CHUNK;
      if chunks != [] {
        front, chunk := chunks[..|chunks| - 1], chunks[|chunks| - 1];
      }
      if line == "" {
        chunk := chunk.PushContextLine("");
      } else if line[0] == ' ' {
        chunk := chunk.PushContextLine(line[1..]);
      } else if line[0] == '+' {
        chunk := chunk.PushAdded(line[1..]);
      } else {
        chunk := chunk.PushRemoved(line[1..]);
      }
      return Ok(hunk.(chunks := front + [chunk]));
    }

    function Now(): Snapshot
      reads this
    {
      Snapshot(lineBuffer, View())
    }

    method PushDelta(delta: string) returns (r: Result<seq<Hunk>, ParseError>)
      modifies this
      ensures var fed := Feed(old(Now()), delta);
        && Now() == fed.at
        && r == if fed.error.Some? then Err(fed.error.value) else Ok(hunks)
    {
      hide AfterLine, Feed;
      assert delta[0..] == delta;
      for i := 0 to |delta|
        invariant Feed(old(Now()), delta) == Feed(Now(), delta[i..])
      {
        FeedStep(Now(), delta, i);
        if delta[i] == '\n' {
          var line := StripCr(lineBuffer);
          lineBuffer := "";
          lineNumber := lineNumber + 1;
          var processed := ProcessLine(line);
          if processed.Err? {
            return Err(processed.error);
          }
        } else {
          lineBuffer := lineBuffer + [delta[i]];
        }
      }
      assert delta[|delta|..] == "";
      FeedEnd(Now());
      return Ok(hunks);
    }

    method Finish() returns (r: Result<seq<Hunk>, ParseError>)
      modifies this
      ensures var fed := Finished(old(Now()));
        && Now() == fed.at
        && r == if fed.error.Some? then Err(fed.error.value) else Ok(hunks)
    {
      hide AfterLine, CheckNotEmpty, Trim;
      if lineBuffer != "" {
        var line := lineBuffer;
        lineBuffer := "";
        lineNumber := lineNumber + 1;
        if Trim(line) == END_PATCH {
          var empty := EnsureUpdateHunkIsNotEmpty();
          if empty.Some? {
            return Err(empty.value);
          }
          mode := EndedPatch;
        } else {
          var processed := ProcessLine(line);
          if processed.Err? {
            return Err(processed.error);
          }
        }
      }
      if !mode.EndedPatch? {
        return Err(InvalidPatch);
      }
      return Ok(hunks);
    }
  }

  lemma FeedStep(p: Snapshot, delta: string, i: nat)
    requires i < |delta|
    ensures var fed := FeedChar(p, delta[i]);
      Feed(p, delta[i..]) == if fed.error.Some? then fed else Feed(fed.at, delta[i + 1..])
  {
    hide FeedChar;
    assert delta[i..][0] == delta[i] && delta[i..][1..] == delta[i + 1..];
  }

  lemma FeedEnd(p: Snapshot)
    ensures Feed(p, "") == Fed(p, None)
  {
  }
}
