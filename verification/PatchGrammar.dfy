/** The grammar of patches as text trees, and what the parser does with one more line: it takes the line
    exactly where the grammar has a place for it. */
module PatchGrammar {
  import opened Text
  import opened Patch
  import opened StreamingParser

  // ---------------------------------------------------------------- the trees

  /** A context line, or none in front of the first chunk; then diff lines; then, at the end of the file, an
      end-of-file line with blank lines behind. */
  datatype ChunkText = ChunkText(opening: Option<string>, context: Option<string>, diff: seq<string>,
                                 ending: seq<string>)

  /** An update hunk may have end-of-file lines around its move line, which mean nothing there. */
  datatype HunkText =
    | AddText(header: string, path: string, body: seq<string>)
    | DeleteText(header: string, path: string)
    | UpdateText(header: string, path: string, skipped: seq<string>, move: Option<string>, movePath: Option<string>,
                 skippedAfter: seq<string>, chunks: seq<ChunkText>)

  datatype PatchTree = PatchTree(begin: Option<string>, environment: Option<string>, environmentId: Option<string>,
                                 hunks: seq<HunkText>, closing: seq<string>)

  const NO_LINES := PatchTree(None, None, None, [], [])

  function One(line: Option<string>): seq<string> {
    if line.Some? then [line.value] else []
  }

  // ---------------------------------------------------------------- their lines

  function ChunkYield(c: ChunkText): seq<string> {
    One(c.opening) + c.diff + c.ending
  }

  function ChunksYield(chunks: seq<ChunkText>): seq<string> {
    if chunks == [] then [] else ChunksYield(chunks[..|chunks| - 1]) + ChunkYield(chunks[|chunks| - 1])
  }

  function HunkYield(h: HunkText): seq<string> {
    match h
    case AddText(header, _, body) => [header] + body
    case DeleteText(header, _) => [header]
    case UpdateText(header, _, skipped, move, _, skippedAfter, chunks) =>
      [header] + skipped + One(move) + skippedAfter + ChunksYield(chunks)
  }

  function HunksYield(hunks: seq<HunkText>): seq<string> {
    if hunks == [] then [] else HunksYield(hunks[..|hunks| - 1]) + HunkYield(hunks[|hunks| - 1])
  }

  function Yield(t: PatchTree): seq<string> {
    One(t.begin) + One(t.environment) + HunksYield(t.hunks) + t.closing
  }

  // ---------------------------------------------------------------- where lines fit

  predicate IsDiff(line: string) {
    line == "" || line[0] == ' ' || line[0] == '+' || line[0] == '-'
  }

  predicate IsBlank(line: string) {
    TrimEnd(line) == ""
  }

  predicate IsEndOfFile(line: string) {
    TrimEnd(line) == "*** End of File"
  }

  predicate AllEndOfFile(lines: seq<string>) {
    forall i :: 0 <= i < |lines| ==> IsEndOfFile(lines[i])
  }

  predicate OpensWith(line: string, context: Option<string>) {
    TrimEnd(line) == if context.Some? then "@@ " + context.value else "@@"
  }

  predicate AllDiff(lines: seq<string>) {
    forall i :: 0 <= i < |lines| ==> IsDiff(lines[i])
  }

  predicate ChunkFits(c: ChunkText) {
    && (match c.opening
        case None => c.context == None && c.diff != []
        case Some(line) => OpensWith(line, c.context))
    && AllDiff(c.diff)
    && (c.ending != [] ==>
          c.diff != [] && IsEndOfFile(c.ending[0]) && forall i :: 1 <= i < |c.ending| ==> IsBlank(c.ending[i]))
  }

  /** Only the first chunk may lack a context line, only the last may lack lines so far. */
  predicate ChunksFit(chunks: seq<ChunkText>) {
    && (forall i :: 0 <= i < |chunks| ==> ChunkFits(chunks[i]))
    && (forall i :: 1 <= i < |chunks| ==> chunks[i].opening.Some?)
    && (forall i :: 0 <= i < |chunks| - 1 ==> chunks[i].diff != [])
  }

  /** Behind an update hunk, a header must start its line. */
  function Cut(line: string, behindUpdate: bool): string {
    if behindUpdate then TrimEnd(line) else Trim(line)
  }

  predicate HeaderFits(h: HunkText, behindUpdate: bool) {
    match h
    case AddText(header, path, _) => Cut(header, behindUpdate) == "*** Add File: " + path
    case DeleteText(header, path) => Cut(header, behindUpdate) == "*** Delete File: " + path
    case UpdateText(header, path, _, _, _, _, _) => Cut(header, behindUpdate) == "*** Update File: " + path
  }

  predicate MoveFits(move: Option<string>, movePath: Option<string>) {
    match move
    case None => movePath == None
    case Some(line) => movePath.Some? && TrimEnd(line) == "*** Move to: " + movePath.value
  }

  predicate BodyFits(h: HunkText) {
    match h
    case AddText(_, _, body) => forall i :: 0 <= i < |body| ==> body[i] != "" && body[i][0] == '+'
    case DeleteText(_, _) => true
    case UpdateText(_, _, skipped, move, movePath, skippedAfter, chunks) =>
      && AllEndOfFile(skipped) && MoveFits(move, movePath)
      && AllEndOfFile(skippedAfter) && (move.None? ==> skippedAfter == [])
      && ChunksFit(chunks)
  }

  predicate HunkFits(h: HunkText, behindUpdate: bool) {
    HeaderFits(h, behindUpdate) && BodyFits(h)
  }

  predicate Whole(h: HunkText) {
    h.UpdateText? ==> h.chunks != [] && h.chunks[|h.chunks| - 1].diff != []
  }

  predicate BehindUpdate(hunks: seq<HunkText>) {
    hunks != [] && hunks[|hunks| - 1].UpdateText?
  }

  predicate LastWhole(hunks: seq<HunkText>) {
    hunks != [] ==> Whole(hunks[|hunks| - 1])
  }

  predicate HunksFit(hunks: seq<HunkText>) {
    hunks == [] ||
    var front := hunks[..|hunks| - 1];
    HunksFit(front) && LastWhole(front) && HunkFits(hunks[|hunks| - 1], BehindUpdate(front))
  }

  /** The tree of a patch, or of the beginning of one. */
  predicate Fits(t: PatchTree) {
    match t.begin
    case None => t == NO_LINES
    case Some(line) =>
      && Trim(line) == "*** Begin Patch"
      && (match t.environment
          case None => t.environmentId == None
          case Some(line) =>
            var trimmed := Trim(line);
            && "*** Environment ID:" <= trimmed
            && t.environmentId == Some(Trim(trimmed[|"*** Environment ID:"|..])) && t.environmentId != Some(""))
      && HunksFit(t.hunks)
      && (t.closing != [] ==>
           && LastWhole(t.hunks) && Cut(t.closing[0], BehindUpdate(t.hunks)) == "*** End Patch"
           && forall i :: 1 <= i < |t.closing| ==> Trim(t.closing[i]) == "")
  }

  // ---------------------------------------------------------------- what trees mean

  function OldTexts(diff: seq<string>): seq<string> {
    if diff == [] then []
    else
      var line := diff[|diff| - 1];
      OldTexts(diff[..|diff| - 1]) + if line != "" && line[0] == '+' then [] else [TextOf(line)]
  }

  function NewTexts(diff: seq<string>): seq<string> {
    if diff == [] then []
    else
      var line := diff[|diff| - 1];
      NewTexts(diff[..|diff| - 1]) + if line != "" && line[0] == '-' then [] else [TextOf(line)]
  }

  function TextOf(line: string): string {
    if line == "" then "" else line[1..]
  }

  /** The places of the lines that stand in both lists. */
  function Pairs(diff: seq<string>): seq<(nat, nat)> {
    if diff == [] then []
    else
      var front, line := diff[..|diff| - 1], diff[|diff| - 1];
      Pairs(front) + if line == "" || line[0] == ' ' then [(|OldTexts(front)|, |NewTexts(front)|)] else []
  }

  function ChunkOf(c: ChunkText): UpdateFileChunk {
    UpdateFileChunk(c.context, OldTexts(c.diff), NewTexts(c.diff), Pairs(c.diff), c.ending != [])
  }

  function ChunksOf(chunks: seq<ChunkText>): seq<UpdateFileChunk> {
    if chunks == [] then [] else ChunksOf(chunks[..|chunks| - 1]) + [ChunkOf(chunks[|chunks| - 1])]
  }

  function ContentsOf(body: seq<string>): string {
    if body == [] then "" else ContentsOf(body[..|body| - 1]) + TextOf(body[|body| - 1]) + "\n"
  }

  function HunkOf(h: HunkText): Hunk {
    match h
    case AddText(_, path, body) => AddFile(path, ContentsOf(body))
    case DeleteText(_, path) => DeleteFile(path)
    case UpdateText(_, path, _, _, movePath, _, chunks) => UpdateFile(path, movePath, ChunksOf(chunks))
  }

  function HunksOf(hunks: seq<HunkText>): seq<Hunk> {
    if hunks == [] then [] else HunksOf(hunks[..|hunks| - 1]) + [HunkOf(hunks[|hunks| - 1])]
  }

  /** The number of the line with the header of the last hunk. */
  function HeaderLine(t: PatchTree): nat {
    |One(t.begin) + One(t.environment)|
    + (if t.hunks == [] then 0 else |HunksYield(t.hunks[..|t.hunks| - 1])| + 1)
  }

  function ModeOf(t: PatchTree): Mode {
    if t.begin.None? then NotStarted
    else if t.closing != [] then EndedPatch
    else if t.hunks == [] then StartedPatch
    else match t.hunks[|t.hunks| - 1]
      case AddText(_, _, _) => InAddFile
      case DeleteText(_, _) => InDeleteFile
      case UpdateText(_, _, _, _, _, _, _) => InUpdateFile(HeaderLine(t))
  }

  /** The parser behind the lines of the tree. */
  function StateOf(t: PatchTree): State {
    State(ModeOf(t), HunksOf(t.hunks), t.environmentId, |Yield(t)|)
  }

  // ---------------------------------------------------------------- one more line

  function ExtendChunks(chunks: seq<ChunkText>, line: string): Option<seq<ChunkText>>
    requires chunks != []
  {
    var front, c := chunks[..|chunks| - 1], chunks[|chunks| - 1];
    var trimmed := TrimEnd(line);
    if c.ending != [] && trimmed == "" then Some(front + [c.(ending := c.ending + [line])])
    else if trimmed == "@@" || "@@ " <= trimmed then
      if c.diff == [] then None else Some(chunks + [Opened(line)])
    else if c.ending != [] then None
    else if trimmed == "*** End of File" then
      if c.diff == [] then None else Some(front + [c.(ending := [line])])
    else if IsDiff(line) then Some(front + [c.(diff := c.diff + [line])])
    else None
  }

  function Opened(line: string): ChunkText {
    var trimmed := TrimEnd(line);
    ChunkText(Some(line), if trimmed == "@@" || |trimmed| < 3 then None else Some(trimmed[3..]), [], [])
  }

  function ExtendUpdate(h: HunkText, line: string): Option<HunkText>
    requires h.UpdateText?
  {
    var trimmed := TrimEnd(line);
    if h.chunks != [] then
      var extended := ExtendChunks(h.chunks, line);
      if extended.Some? then Some(h.(chunks := extended.value)) else None
    else if trimmed == "*** End of File" then
      Some(if h.move.Some? then h.(skippedAfter := h.skippedAfter + [line]) else h.(skipped := h.skipped + [line]))
    else if "*** Move to: " <= trimmed && h.move.None? then
      Some(h.(move := Some(line), movePath := Some(trimmed[|"*** Move to: "|..])))
    else if trimmed == "@@" || "@@ " <= trimmed then Some(h.(chunks := [Opened(line)]))
    else if IsDiff(line) then Some(h.(chunks := [ChunkText(None, None, [line], [])]))
    else None
  }

  function ExtendBody(h: HunkText, line: string): Option<HunkText> {
    match h
    case AddText(_, _, body) => if line != "" && line[0] == '+' then Some(h.(body := body + [line])) else None
    case DeleteText(_, _) => None
    case UpdateText(_, _, _, _, _, _, _) => ExtendUpdate(h, line)
  }

  /** The hunk this line opens, if it is a header. */
  function OpenedBy(line: string, trimmed: string): Option<HunkText> {
    if "*** Add File: " <= trimmed then Some(AddText(line, trimmed[|"*** Add File: "|..], []))
    else if "*** Delete File: " <= trimmed then Some(DeleteText(line, trimmed[|"*** Delete File: "|..]))
    else if "*** Update File: " <= trimmed then
      Some(UpdateText(line, trimmed[|"*** Update File: "|..], [], None, None, [], []))
    else None
  }

  /** The tree with one more line, if there is a place for it. */
  function Extend(t: PatchTree, line: string): Option<PatchTree> {
    if t.begin.None? then if Trim(line) == "*** Begin Patch" then Some(t.(begin := Some(line))) else None
    else if t.closing != [] then if Trim(line) == "" then Some(t.(closing := t.closing + [line])) else None
    else
      var trimmed := Cut(line, BehindUpdate(t.hunks));
      if t.hunks == [] && "*** Environment ID:" <= trimmed then
        var id := Trim(trimmed[|"*** Environment ID:"|..]);
        if t.environment.None? && id != "" then Some(t.(environment := Some(line), environmentId := Some(id))) else None
      else if trimmed == "*** End Patch" then
        if LastWhole(t.hunks) then Some(t.(closing := [line])) else None
      else
        var next := OpenedBy(line, trimmed);
        if next.Some? then
          if LastWhole(t.hunks) then Some(t.(hunks := t.hunks + [next.value])) else None
        else if t.hunks == [] then None
        else
          var extended := ExtendBody(t.hunks[|t.hunks| - 1], line);
          if extended.Some? then Some(t.(hunks := t.hunks[..|t.hunks| - 1] + [extended.value])) else None
  }
}
