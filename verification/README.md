# Verification of the patch engine, the Hub protocol, the browser host and the OAuth store

This Dafny 4.11 project models the four stateful cores of the repository and proves what they
promise. `dafny verify dfyconfig.toml` checks all of it.

**Patch engine** (`crates/agentic-apply-patch`). A streaming line parser turns patch text into hunks;
chunks are located in a file by a four-level search; located chunks become index edits; the edits are
applied by a reverse in-place loop or by a forward rebuild that keeps every line's own terminator. `Text`
and `Patch` hold strings and the parsed form, `TextFile` the lines with their terminators, `LineSearch`
the search and `LineKeys` what each of its levels lets lines differ in, `FileUpdate` the edits and their
stable sort, `ApplyUpdate` the two appliers and the whole update. On top of these, `PlacementSearch` says
exactly where each chunk is placed and when which error stops the search, `EditSafety` proves that
computed edits are ordered, disjoint and in bounds, `NormalizedOrder` says exactly when they are in the
mode that does not promise it, `UpdateMeaning` and `UpdateResults` say what an update does line by line
and perform edit scripts, and `ModeAgreement` says when the two modes write the same file.
`StreamingParser` is the parser, `ParserRuns` its invariants over all runs, `PatchText` the whole-text
entry point with its boundary checks. `PatchGrammar` gives the grammar as text trees, `GrammarSteps`
proves that the parser takes exactly the lines the grammar has a place for, and `GrammarParses` that a
text parses to exactly what it denotes by the grammar, each failure with its error. `PatchPrinter` is a
printer of the documented grammar whose output is read back line by line, `PrintRoundTrip` the round trip
from hunks to text and back, `ParserRange` the parser's exact range and the round trip from text, and
`PatchApplies` goes from patch text to file text.

**Hub protocol** (`crates/agentic-gpt-hub`). `HubConnections` is the connection map with the active-room
lease, `HubRuns` the runs of connects, Hellos, messages, disconnects and sweeps, and `HubAdmission` the
outcome of each of these after any run. `HubDispatch` holds the pending waiters and the run table.
`HubRequests` interleaves requests, flushes, re-admissions, stored, taken and delivered responses,
reports and timeouts, one critical section a step; `HubResponses` proves that results are stored and
reach the calls that wait for them; `HubSends` proves where commands may go.

**Browser host** (`crates/agentic-browser-host`). `BrowserFraming` reads and writes length-prefixed
frames over a stream that fragments as it likes; `BrowserRouting` rewrites request ids and routes
responses back across client drops.

**OAuth store** (`crates/agentic-gpt-hub/src/ingress/oauth.rs`). `OAuthStore` holds one-shot codes and
bearer tokens; `OAuthRuns` proves properties of whole runs, and `OAuthGrants` tells every answer of the
store from the history of requests.

Code that changes state is a class or a method, proved against a function on values: `View()` of an
object after a call is that function of `View()` before it. Theorems are about these functions and
about sequences of steps of them.

## Assumptions

- SHA-256, random codes, tokens, run ids and bridge ids: hashes are injective, random ids are new. The
  S256 digest, URL parsing and the MCP resource URL are parameters.
- Clock readings are parameters, taken where the code takes them; where an order of them matters it is a
  precondition (`OAuthRuns.SweepsReadEarlier`) or part of an exact condition.
- A token request takes the code's lock and the token's lock one after the other, and is one step: until
  the second section nobody knows the token.
- A path is a string; JSON values are opaque beyond the fields that routing reads and edits, and turning
  bytes into JSON and back is a parameter; a file's text is a sequence of characters, with Unicode
  whitespace and the punctuation map written out.
- Where channels are compared, every connection brings a channel of its own (`HubSends.OwnChannels`), as
  a new channel is made for each.
- The error `Underflow` stands for the panic of an index subtraction, a slice out of order or the debug
  assertion in text_file.rs:92; release builds, where the assertion is off, are not modelled apart.
- Error messages are dropped; the error kind and, for hunk errors, the line number are kept.
- The `agents` lock makes a critical section one step, as agents/lifecycle.rs:143-146 says. Preparing a
  run, adding its waiter and sending happen under that lock and the pending lock, and are one step.
- The feedback preflight is a free choice between ready, must flush and failed; a failed database
  operation changes nothing.

## Where the code and its documentation differ

- seek_sequence.rs:6-8 promises a fallback to a search from `start` after an end-of-file search, and
  lists three levels. The code has no fallback and four levels. `LineSearch.EofFallbackIff` says exactly
  when the fallback would have made a difference, `LineSearch.EofHasNoFallback` gives a file.
- parser.rs:174-176 says the inside of a heredoc is trimmed. It is not (`PatchText.HeredocKeepsOuterBlanks`);
  `PatchText.HeredocSameIff` says exactly when that makes no difference. The last line need only end in
  `EOF`.
- The grammar in parser.rs:8-24 asks for at least one hunk and one added line. The code takes a patch
  without hunks and an added file without lines, as `ParserRange.RangeIff` makes exact. It also lets headers have
  leading whitespace except behind an update hunk, ignores end-of-file lines in front of an update hunk's first
  chunk, and takes blank lines behind an end-of-file line: `PatchGrammar` is the grammar the code follows, by
  `GrammarParses.ParseIff`.
- A line text that ends in CRs loses up to two of them each time it is printed and parsed, one to
  `str::lines` and one to the streaming parser: `PrintRoundTrip.PrintParseIff` says exactly when nothing
  is lost, `ParserRange.FinalCrIsLost` gives the texts.
- The streaming parser takes an unterminated end marker that nothing came before; only the boundary
  check of the whole-text entry point refuses it. `PatchText.UnstartedFinishIff` says which texts these
  are.
- NormalizeToLf may compute overlapping edits, for end-of-file chunks and for insertions in front of a
  blank last line. `NormalizedOrder.NormalizedOrderedIff` says exactly when, `EndBlockOverlap` and
  `InsertionOverlap` what is then written; in PreserveLineEndings edits never overlap.
- Re-admission compares connection ids but keeps the old sender, so a caller that chooses an id again
  during a flush gets the command on its old channel: exactly then, by `HubSends.ReadmittedChannelIff`.
- A bearer check reads the clock before it waits for the lock, so a sweep with a later reading can make
  it refuse a token that had not expired at its own reading: `OAuthRuns.SweepChangesCheckIff`.

## Model

| member | source | states |
|---|---|---|
| TextFile.SourceFile.Parse | crates/agentic-apply-patch/src/text_file.rs:37-75 | the one-pass cursor loop yields the lines of the recursive definition, and the first ending found (LF if none) as preferred ending |
| TextFile.SourceFile.LineTexts | crates/agentic-apply-patch/src/text_file.rs:77-79 | the texts of the lines, in order |
| TextFile.SourceFile.ApplyReplacements | crates/agentic-apply-patch/src/text_file.rs:86-111 | on ordered edits the forward rebuild is the functional splice, every line then terminated; the subtraction of the debug assertion never underflows |
| TextFile.SourceFile.FillEndings | crates/agentic-apply-patch/src/text_file.rs:106-110 | only lines without an ending change, and gain the preferred one |
| TextFile.SourceFile.IntoContents | crates/agentic-apply-patch/src/text_file.rs:113-122 | the buffer is the rendering of all lines |
| TextFile.RenderParse | crates/agentic-apply-patch/src/text_file.rs:37-122 | rendering the parsed lines of any text gives the text back |
| TextFile.ParseIsCanonical | crates/agentic-apply-patch/src/text_file.rs:37-75 | parsed texts hold no CR or LF, only the last line may lack an ending and is then not empty, no CR-ended line is followed by an empty LF-ended one |
| TextFile.ParseRender | crates/agentic-apply-patch/src/text_file.rs:37-122 | parsing a rendered line list restores it if and only if the list is canonical |
| TextFile.PreferredIsFirst | crates/agentic-apply-patch/src/text_file.rs:37-75 | new lines end as the first line break of the text reads, with LF where there is none |
| LineSearch.SeekSequence | crates/agentic-apply-patch/src/seek_sequence.rs:14-117 | the four passes in turn compute the specified search |
| LineSearch.Scan | crates/agentic-apply-patch/src/seek_sequence.rs:42-114 | one pass finds the least index of a match at its level |
| LineSearch.LevelsNest | crates/agentic-apply-patch/src/seek_sequence.rs:41-114 | a match at a level is a match at every more lenient level |
| LineSearch.SeekContract | crates/agentic-apply-patch/src/seek_sequence.rs:14-117 | the result is the least index in the search range at the strictest level with any match; none is found if and only if no normalised match is in range |
| LineSearch.SeekIffOccurs | crates/agentic-apply-patch/src/seek_sequence.rs:14-117 | for every pattern: found if and only if it occurs in range up to whitespace and punctuation |
| LineSearch.EofMatchesAtEnd | crates/agentic-apply-patch/src/seek_sequence.rs:32-40 | a non-empty end-of-file pattern matches only so as to end at the last line |
| LineSearch.EofFallbackIff | crates/agentic-apply-patch/src/seek_sequence.rs:6-40 | the code agrees with the documented fallback if and only if the pattern matches at the end or nowhere from the start index on |
| LineSearch.EofHasNoFallback | crates/agentic-apply-patch/src/seek_sequence.rs:6-40 | a concrete file on which the documented fallback does not happen |
| LineKeys.MatchIff | crates/agentic-apply-patch/src/seek_sequence.rs:40-112 | two lines match at a level exactly if they differ in nothing but this: whitespace at the end; whitespace at both ends; and, at the last level, which dash, quote or space stands for another of its kind |
| Patch.UpdateFileChunk.PushKeepsContextOk | crates/agentic-apply-patch/src/parser.rs:121-130 | every way the parser grows a chunk keeps its context pairs strictly rising, in bounds and naming equal lines |
| FileUpdate.PlaceChunkContract | crates/agentic-apply-patch/src/file_update.rs:105-176 | a chunk is located exactly where its old lines occur; a blank last line is given up, on both sides, only when the whole does not occur |
| FileUpdate.ComputeReplacements | crates/agentic-apply-patch/src/file_update.rs:48-182 | the loop over chunks with its moving line index computes the specified edits or error, sorted; `PlacementSearch` says where each chunk goes |
| FileUpdate.LocateChunk | crates/agentic-apply-patch/src/file_update.rs:76-131 | insertion point, search and retry without the trailing blank line, as specified |
| PlacementSearch.SeekIff | crates/agentic-apply-patch/src/seek_sequence.rs:14-117 | the search answers an index if and only if it is the first place in range at the strictest level at which the pattern stands anywhere in range, and none if and only if it stands nowhere |
| PlacementSearch.PlaceIff | crates/agentic-apply-patch/src/file_update.rs:61-131 | for every file and chunk list: exactly these placements, or exactly this error; every chunk is searched for from where the one before it ended, behind its context line where it has one, and insertions move nothing; the first chunk without its context or its block gives the error |
| PlacementSearch.EditsIff | crates/agentic-apply-patch/src/file_update.rs:48-182 | so for parsed chunks the computed edits are those of the blocks found in this way, sorted, and the error is that of the first chunk that is not found |
| FileUpdate.PlacementEdits | crates/agentic-apply-patch/src/file_update.rs:133-168 | the walk over context pairs computes one edit for every changed gap |
| FileUpdate.NoIdleEdits | crates/agentic-apply-patch/src/file_update.rs:139-168 | no edit of a located chunk leaves the file as it is: stretches between context lines that do not change give no edit |
| FileUpdate.StableSortContract | crates/agentic-apply-patch/src/file_update.rs:179 | the sort orders by start, is a permutation, and keeps edits of equal start in order |
| EditSafety.EditsAreFlattened | crates/agentic-apply-patch/src/file_update.rs:133-169 | for parsed chunks no gap subtraction or slice is out of order, and the edits are those of the placed chunks |
| EditSafety.SafeEdits | crates/agentic-apply-patch/src/file_update.rs:48-182 | for parsed chunks and every file, the sorted edits are ordered, pairwise disjoint and in bounds: in PreserveLineEndings for every chunk list, in NormalizeToLf for lists without end-of-file chunks, and without insertions where the file's last line is blank |
| EditSafety.NormalizedStarts | crates/agentic-apply-patch/src/file_update.rs:80-137 | in NormalizeToLf every edit still starts inside the file and nothing underflows, whatever the chunks |
| NormalizedOrder.NormalizedOrderedIff | crates/agentic-apply-patch/src/file_update.rs:48-182 | in NormalizeToLf the sorted edits are in bounds for every chunk list, and ordered and disjoint if and only if every end-of-file block lies behind the blocks before it and no insertion in front of a blank last line meets a block covering that line |
| NormalizedOrder.NormalizedWritesSplice | crates/agentic-apply-patch/src/file_update.rs:186-207 | under that condition the reverse loop writes the splice |
| NormalizedOrder.EndBlockOverlap | crates/agentic-apply-patch/src/seek_sequence.rs:32-36 | on every non-empty file a whole-file chunk and an end-of-file chunk overlap, and the reverse loop loses the first line of the second replacement |
| NormalizedOrder.InsertionOverlap | crates/agentic-apply-patch/src/file_update.rs:80-91 | on every file with a blank last line a whole-file chunk and an insertion overlap, and the reverse loop loses the first inserted line and leaves the blank one |
| ApplyUpdate.ApplyReplacements | crates/agentic-apply-patch/src/file_update.rs:186-207 | the loop in descending order equals applying the edits backwards on values |
| ApplyUpdate.ReplaceInPlace | crates/agentic-apply-patch/src/file_update.rs:189-204 | the guarded removes and the inserts of one edit replace its range |
| ApplyUpdate.BackwardsIsSplice | crates/agentic-apply-patch/src/file_update.rs:186-207 | on ordered, disjoint, in-bounds edits the reverse in-place loop is the functional splice |
| ApplyUpdate.TwoAppliersAgree | crates/agentic-apply-patch/src/file_update.rs:186-207 | the reverse loop and the forward rebuild give the same line texts, zero-length edits at equal indices included |
| ApplyUpdate.NormalizedApplicable | crates/agentic-apply-patch/src/file_update.rs:27-28 | the reverse loop never inserts out of range on computed edits |
| ApplyUpdate.ApplyUpdateToText | crates/agentic-apply-patch/src/file_update.rs:11-43 | the whole update in either mode, for every chunk list, as specified |
| ApplyUpdate.ParsedUpdatesNeverPanic | crates/agentic-apply-patch/src/file_update.rs:11-43 | for parsed chunks no subtraction underflows and the ordering assertion never fires: an update fails only where a context or a block is not found |
| UpdateMeaning.PreserveMeaning | crates/agentic-apply-patch/src/file_update.rs:34-42 | for every parsed chunk list: lines outside all blocks stay as they are with their endings, every block becomes its target with context lines kept, insertions queue up at the end |
| UpdateResults.BlocksMeaning | crates/agentic-apply-patch/src/file_update.rs:133-169 | without pure insertions the update replaces each located block by its target and nothing else |
| UpdateResults.EditScriptCorrect | crates/agentic-apply-patch/src/file_update.rs:34-42 | for any file and any Keep/Delete/Add script over exactly its lines, the script's chunk yields the script's result: kept lines with their own endings, added ones with the preferred ending |
| ModeAgreement.SameLines | crates/agentic-apply-patch/src/file_update.rs:19-36 | without CR, splitting at LF and parsing give the same line texts |
| ModeAgreement.ModesAgreeIff | crates/agentic-apply-patch/src/file_update.rs:17-43 | on a CR-free file with verbatim blocks and no end-of-file or insertion chunk, the two modes write the same text if and only if the last line of the result is not blank |
| ModeAgreement.ModesFailAlike | crates/agentic-apply-patch/src/file_update.rs:48-182 | there, one mode fails if and only if the other does, with the same error |
| StreamingParser.StreamingPatchParser.EnsureUpdateHunkIsNotEmpty | crates/agentic-apply-patch/src/streaming_parser.rs:55-84 | the emptiness check of the hunk in progress, as specified |
| StreamingParser.StreamingPatchParser.HandleHunkHeadersAndEndPatch | crates/agentic-apply-patch/src/streaming_parser.rs:86-139 | header handling as specified; errors leave the state unchanged |
| StreamingParser.StreamingPatchParser.ProcessLine | crates/agentic-apply-patch/src/streaming_parser.rs:177-381 | one line in each of the six modes, as specified; errors leave the state unchanged |
| StreamingParser.StreamingPatchParser.ProcessUpdateLine | crates/agentic-apply-patch/src/streaming_parser.rs:229-370 | one line of an update hunk, as specified |
| StreamingParser.StreamingPatchParser.PushDelta | crates/agentic-apply-patch/src/streaming_parser.rs:141-154 | the character loop equals feeding the delta on values, up to the first error |
| StreamingParser.StreamingPatchParser.Finish | crates/agentic-apply-patch/src/streaming_parser.rs:156-175 | the rule for an unterminated last line and the final mode check, as specified |
| ParserRuns.AnySplitIsOnePush | crates/agentic-apply-patch/src/streaming_parser.rs:141-154 | however a text is split into deltas, pushing them is pushing it at once: same state, hunks, id or first error |
| ParserRuns.PushIsLineFold | crates/agentic-apply-patch/src/streaming_parser.rs:141-175 | a push is the fold of the line step over LF-split lines without one trailing CR; the unterminated rest stays in the buffer |
| ParserRuns.ErrorNamesLine | crates/agentic-apply-patch/src/streaming_parser.rs:55-370 | a hunk error names the line just read or the one that opened the update hunk |
| ParserRuns.LineKeeps | crates/agentic-apply-patch/src/streaming_parser.rs:177-381 | one line keeps the state invariant and changes only the end of the last hunk |
| ParserRuns.RunsKeep | crates/agentic-apply-patch/src/streaming_parser.rs:141-154 | in every reachable state the mode names the kind of the last hunk, context pairs are sound, earlier hunks are complete; everything but the last hunk's end is final, an ended chunk included |
| ParserRuns.FinishedIsComplete | crates/agentic-apply-patch/src/streaming_parser.rs:156-175 | a successful finish leaves every update hunk with chunks and no chunk empty |
| PatchText.ParsePatchText | crates/agentic-apply-patch/src/parser.rs:180-198 | trimming, line splitting, boundary checks and one streaming run, as specified |
| PatchText.ParsedIsComplete | crates/agentic-apply-patch/src/parser.rs:180-198 | the hunks of any parsed text are valid and complete |
| PatchText.HeredocBoundaries | crates/agentic-apply-patch/src/parser.rs:202-241 | strict mode refuses every heredoc wrapping; lenient mode parses exactly the lines inside |
| PatchText.HeredocParsesAsInner | crates/agentic-apply-patch/src/parser.rs:219-241 | wrapping a text without outer whitespace changes nothing, whether it parses or with which error it fails |
| PatchText.HeredocKeepsOuterBlanks | crates/agentic-apply-patch/src/parser.rs:174-241 | the inside is not trimmed: a blank first line parses plainly and fails when wrapped |
| PatchText.HeredocSameIff | crates/agentic-apply-patch/src/parser.rs:202-241 | for every text that parses plainly, the wrapped text gives the same hunks and id if and only if the text's own first and last line, trimmed, are the markers |
| PatchText.UnstartedFinishIff | crates/agentic-apply-patch/src/streaming_parser.rs:141-175 | a text finishes the streaming parser although no patch has begun, if and only if it is one unterminated line that reads as the end marker |
| PatchText.UnstartedIsRefused | crates/agentic-apply-patch/src/parser.rs:180-217 | the whole-text entry point refuses every such text |
| GrammarSteps.ExtendStep | crates/agentic-apply-patch/src/streaming_parser.rs:177-381 | one line behind any tree of the grammar: the parser takes it if and only if the grammar has a place for it, and is then in the state the longer tree means; else it stops with the error stated for that line, and its number |
| GrammarParses.LinesIff | crates/agentic-apply-patch/src/streaming_parser.rs:141-381 | lines are read without an error if and only if they are those of a tree of the grammar, whole or begun, and the state behind them is what the tree means |
| GrammarParses.PlaceForIff | crates/agentic-apply-patch/src/parser.rs:6-24 | there is a place for one more line if and only if the lines with it are those of a tree |
| GrammarParses.ErrorIff | crates/agentic-apply-patch/src/streaming_parser.rs:55-381 | reading stops with an error if and only if it is the one stated for the first line that has no place |
| GrammarParses.EndFinishes | crates/agentic-apply-patch/src/streaming_parser.rs:156-175 | an unterminated end marker closes the patch in any mode if and only if the last hunk is whole; else the error names the header of an update hunk without chunks, or the last line |
| GrammarParses.RestFinishes | crates/agentic-apply-patch/src/streaming_parser.rs:156-175 | any other unterminated rest is one more line, and a patch not closed then is invalid |
| GrammarParses.ParseIff | crates/agentic-apply-patch/src/parser.rs:180-241 | for every text and both modes: parsing gives these hunks and this id if and only if the trimmed text, or in lenient mode the inside of its heredoc, stands between the markers and its lines are those of a whole tree with this meaning |
| GrammarParses.ParseErrors | crates/agentic-apply-patch/src/parser.rs:180-241 | the errors of all other texts: an invalid patch without its markers, else the error of the first line without a place, else that of a last hunk which is not whole |
| PatchPrinter.DiffRoundTrip | crates/agentic-apply-patch/src/parser.rs:101-130 | pushing the printed diff of a chunk rebuilds it, context index pairs included |
| PatchPrinter.HunkReads | crates/agentic-apply-patch/src/streaming_parser.rs:86-370 | reading the print of a well-formed hunk, in any state ready for a header, adds exactly that hunk |
| PrintRoundTrip.PrintParseStrips | crates/agentic-apply-patch/src/streaming_parser.rs:141-149 | parsing the print of any well-formed hunk list, in both parse modes, gives the list with up to two final CRs off every line text and everything else unchanged: paths, move paths, contexts, index pairs, end-of-file flags, environment id |
| PrintRoundTrip.PrintParseIff | crates/agentic-apply-patch/src/parser.rs:6-24 | it gives exactly the list back if and only if no line text ends in a CR |
| PrintRoundTrip.PrintParse | crates/agentic-apply-patch/src/parser.rs:6-24 | for such lists the parse result is the hunks, the printed text and the id |
| ParserRange.ParsedIsWellFormed | crates/agentic-apply-patch/src/streaming_parser.rs:86-370 | whatever text was parsed, its hunks and its id can be printed |
| ParserRange.RangeIff | crates/agentic-apply-patch/src/parser.rs:180-198 | some text parses to given hunks and id if and only if the hunks are well formed and the id is a trimmed, non-empty line |
| ParserRange.ParsePrintParseIff | crates/agentic-apply-patch/src/parser.rs:180-198 | for every text that parses: printing the result and parsing it again gives the same hunks and id if and only if no parsed line text kept a final CR |
| ParserRange.ParsePrintParse | crates/agentic-apply-patch/src/parser.rs:180-198 | so for every text, with LF or CRLF line ends, none of whose lines ends in more than one CR once its line end is gone |
| ParserRange.FinalCrIsLost | crates/agentic-apply-patch/src/streaming_parser.rs:141-149 | an added line with three CRs parses with one, which printing and parsing again loses |
| PatchApplies.ParsedEditsAreSafe | crates/agentic-apply-patch/src/text_file.rs:81-92 | for every patch text that parses and every file, the edits the forward rebuild gets are ordered, disjoint and in bounds |
| PatchApplies.PrintedScriptCorrect | crates/agentic-apply-patch/src/file_update.rs:34-42 | print, parse and apply: the printed patch of a script parses to its chunk and turns the file into the script's result |
| HubConnections.Connections.ReleaseActiveRoomIfCurrent | crates/agentic-gpt-hub/src/room/control.rs:62-75 | the lease is released for exactly this agent and connection |
| HubConnections.Connections.ReleaseActiveRoomForAgent | crates/agentic-gpt-hub/src/room/control.rs:77-86 | the lease is released whatever connection of the agent holds it |
| HubConnections.Connections.RegisterConnectionRole | crates/agentic-gpt-hub/src/room/control.rs:28-60 | a Normal role releases, a Room role takes the lease unless another agent holds it, as specified; `HubAdmission.HelloOutcome` says what that means in every run |
| HubConnections.Connections.RegisterConnectionMode | crates/agentic-gpt-hub/src/agents/lifecycle.rs:355-367 | a reporting-only connection releases instead of registering |
| HubConnections.Connections.ReplaceAgentConnection | crates/agentic-gpt-hub/src/agents/lifecycle.rs:408-459 | a fresh connection takes the place of the old one, which loses the lease; bad or current ids change nothing |
| HubConnections.Connections.HandleHello | crates/agentic-gpt-hub/src/agents/lifecycle.rs:154-234 | stale, rejected and accepted Hellos, with the whole new state, as specified |
| HubConnections.Connections.Touch | crates/agentic-gpt-hub/src/agents/lifecycle.rs:162-169 | a message of the current connection refreshes it, no other does |
| HubConnections.Connections.DisconnectAgent | crates/agentic-gpt-hub/src/agents/lifecycle.rs:369-406 | removal only of the named current connection, under the expiry check if one is given |
| HubConnections.Connections.CleanupExpiredOnce | crates/agentic-gpt-hub/src/agents/lifecycle.rs:468-495 | an uninterrupted sweep leaves exactly the unexpired connections and releases the lease if and only if its holder expired |
| HubRuns.ActiveRoomIff | crates/agentic-gpt-hub/src/agents/lifecycle.rs:185-234 | in every run the active room is (a, c) if and only if a's current connection is c, greeted as a command-capable Room |
| HubRuns.RoomRoutingIsTotal | crates/agentic-gpt-hub/src/agents/lifecycle.rs:530-565 | at most one live Room; routing finds it or answers not-active when there is none; state-conflict and not-ready are unreachable |
| HubRuns.GenerationTracksHello | crates/agentic-gpt-hub/src/agents/lifecycle.rs:194-212 | in every run greeted connections carry the generation on record, and a welcome reports a change if and only if the record was another generation |
| HubRuns.ExpiredIff | crates/agentic-gpt-hub/src/agents/lifecycle.rs:379-383 | more than 60 whole seconds means at least 61 seconds, for times in either order |
| HubRuns.SweepRemovesIff | crates/agentic-gpt-hub/src/agents/lifecycle.rs:377-398 | a sweep step removes a connection if and only if it is still the one in the snapshot and was last seen at least 61 seconds ago |
| HubRuns.RecentSurvivesSweep | crates/agentic-gpt-hub/src/agents/lifecycle.rs:468-495 | in every interleaving with other agents' events and its own messages, a recently seen connection survives a sweep |
| HubRuns.RenewedSurvivesSweep | crates/agentic-gpt-hub/src/agents/lifecycle.rs:162-169 | so does every connection that was replaced, or refreshed by a message or a Hello, after the sweep took its snapshot, whatever that snapshot said |
| HubAdmission.ConnectOutcome | crates/agentic-gpt-hub/src/agents/lifecycle.rs:408-459 | after any run: a connection is refused if and only if its id is empty or the current one; else it takes the agent's place, not greeted, the one before it is closed, and the lease is with no connection of the agent; other agents keep all they have |
| HubAdmission.HelloOutcome | crates/agentic-gpt-hub/src/agents/lifecycle.rs:154-234 | after any run: a Hello of a current connection is refused if and only if it asks to be a command-capable Room while another agent is one, and a refusal only refreshes the connection; else the connection is greeted with exactly this role, mode and generation, and is the live Room if and only if it asked to be |
| HubAdmission.MessageOutcome | crates/agentic-gpt-hub/src/agents/lifecycle.rs:147-169 | a message refreshes the current connection it came on and changes nothing else |
| HubAdmission.DisconnectOutcome | crates/agentic-gpt-hub/src/agents/lifecycle.rs:369-406 | after any run: a removal takes away exactly the named connection, with the lease, if it is current and, where expiry is asked about, not seen for 61 seconds; else nothing changes |
| HubAdmission.RoutingOutcome | crates/agentic-gpt-hub/src/agents/lifecycle.rs:509-528 | a command is routed to an agent if and only if its current connection was greeted and takes commands, and then to that connection's channel; each failure has its reason |
| HubAdmission.RoomOutcome | crates/agentic-gpt-hub/src/agents/lifecycle.rs:530-565 | a Room command goes to the holder of the lease if it is live, and fails with a reason of its own for each way in which it is not |
| HubAdmission.AdmissionOutcome | crates/agentic-gpt-hub/src/agents/lifecycle.rs:591-614 | a target is admitted again if and only if its connection is current, greeted, command-capable and still of the role asked for; each refusal has its reason |
| HubDispatch.Dispatch.StoreResult | crates/agentic-gpt-hub/src/storage/runs.rs:492-555 | first write wins: unmatched, stored, duplicate or conflict, with the stored result kept, as specified |
| HubDispatch.Dispatch.TakeWaiter | crates/agentic-gpt-hub/src/agents/dispatch.rs:129-143 | the waiter is removed if and only if its owner matches |
| HubDispatch.Dispatch.PrepareAndSend | crates/agentic-gpt-hub/src/agents/dispatch.rs:295-357 | the run is recorded and its waiter stands exactly when the send succeeded |
| HubRequests.StepGrowsRuns | crates/agentic-gpt-hub/src/storage/runs.rs:492-705 | no step changes a run's identity or a result that is there, agent reports included |
| HubRequests.StepKeeps | crates/agentic-gpt-hub/src/agents/dispatch.rs:57-459 | every step keeps the invariant that ties waiters, handlers and calls to their runs |
| HubRequests.ResponsesAgree | crates/agentic-gpt-hub/src/agents/dispatch.rs:398-457 | in every interleaving a returned value is the recorded result of the call's own run, made for its own request; it is woken at most once and leaves no waiter |
| HubRequests.FirstResultWins | crates/agentic-gpt-hub/src/storage/runs.rs:523-554 | once a run has a result, no continuation makes its call return anything else |
| HubRequests.ReturnedIsFinal | crates/agentic-gpt-hub/src/agents/dispatch.rs:398-459 | a call that has returned, by a timeout too, keeps its answer and has no waiter, whatever late, duplicate or conflicting responses follow |
| HubRequests.OwnerNeverMismatches | crates/agentic-gpt-hub/src/agents/dispatch.rs:129-143 | the waiter-owner-mismatch answer is unreachable |
| HubResponses.HubFollows | crates/agentic-gpt-hub/src/agents/dispatch.rs:57-459 | however requests and responses run in between, the connections are what their own events make of them, a failed send counting as a removal; so what holds in every run of the connections holds in every run of the whole |
| HubResponses.StoreOutcomes | crates/agentic-gpt-hub/src/storage/runs.rs:492-555 | a result is unmatched if and only if no run of this agent and request is under the id; else it is stored, and nothing else changes, if there was none, and a duplicate or a conflict if there was |
| HubResponses.TakeOutcomes | crates/agentic-gpt-hub/src/agents/dispatch.rs:129-143 | a waiter is handed out, and then gone, if and only if it is for this agent, request and command; other waiters stay |
| HubResponses.SendOutcomes | crates/agentic-gpt-hub/src/agents/dispatch.rs:295-357 | after a send its run is on record without a result, its waiter stands if and only if it went out, and other runs and waiters are as before |
| HubResponses.ReportOutcomes | crates/agentic-gpt-hub/src/storage/runs.rs:557-705 | an agent's report adds an unknown run or the result of a known one that has none, and changes nothing else |
| HubResponses.FirstResponseReturns | crates/agentic-gpt-hub/src/agents/dispatch.rs:57-459 | a result reaches its caller: for a call that waits after any run, the first response of its run, then taken, delivered and accepted, makes the call return exactly its value, whatever other steps come in between that neither end the wait nor handle the same run; a timer that goes off behind the delivery is too late |
| HubResponses.RequestOutcomes | crates/agentic-gpt-hub/src/agents/dispatch.rs:230-359 | after any run: a request that can be routed nowhere returns without a value and sends nothing; where the named agent's current connection is greeted and takes commands, or a Room is live, the request goes out to it and waits for a run of its own, or is held back for a flush, or is given up, as preflight and channel have it |
| HubResponses.ReadmitOutcomes | crates/agentic-gpt-hub/src/agents/dispatch.rs:270-294 | after any run, a call held back for a flush is given up if its target is no longer admitted, and else makes one more pass to that very target |
| HubResponses.WaitOutcomes | crates/agentic-gpt-hub/src/agents/dispatch.rs:398-459 | the timer ends a wait only while there is no value; a value ends it once the caller is awake, and is turned into nothing where the feedback bookkeeping fails; nothing but the call changes |
| HubResponses.GivenUp | crates/agentic-gpt-hub/src/agents/dispatch.rs:360-459 | a failed send drops the connection it was meant for and returns without a value; a timed-out call leaves no waiter, returns without a value and drops nothing |
| HubSends.AdmittedIsReady | crates/agentic-gpt-hub/src/agents/lifecycle.rs:579-614 | passing the re-admission check alone makes a Room target the holder of the lease |
| HubSends.SendsAreValid | crates/agentic-gpt-hub/src/agents/dispatch.rs:266-359 | in every run each command leaves while its target is current, greeted and command-capable, a Room command only to the active room of that moment |
| HubSends.KeptChannel | crates/agentic-gpt-hub/src/agents/lifecycle.rs:579-614 | a target admitted again after any steps names the agent's current channel, if the agent has not connected anew under its id since the target was resolved |
| HubSends.ReadmittedChannelIff | crates/agentic-gpt-hub/src/agents/lifecycle.rs:579-614 | each connection having a channel of its own: for a target resolved after any run and admitted after any further steps, its channel is the current one if and only if none of these steps connected its agent anew under its id |
| HubSends.FreshIdsReachCurrentChannel | crates/agentic-gpt-hub/src/agents/lifecycle.rs:571-589 | where no agent connects twice under one id, every command goes down the channel current at that moment |
| HubSends.ReusedIdKeepsOldChannel | crates/agentic-gpt-hub/src/agents/lifecycle.rs:571-614 | a run of seven steps in which a reused id makes a flushed command leave on the channel of the first connection while that of the last is current |
| BrowserFraming.Stream.Read | crates/agentic-browser-host/src/lib.rs:49-60 | a read hands out any non-empty piece of what is there, or is interrupted, or fails; zero only at the end |
| BrowserFraming.ReadExactOrEof | crates/agentic-browser-host/src/lib.rs:49-60 | fills the buffer with the next bytes if and only if enough are left, however reads fragment or are interrupted |
| BrowserFraming.ReadFrame | crates/agentic-browser-host/src/lib.rs:62-79 | one frame: its decoded message, a decoding error, the end of the stream or an oversized length, as the bytes alone determine, unless a read fails |
| BrowserFraming.ReadFrames | crates/agentic-browser-host/src/lib.rs:438-444 | a client's read loop sees all messages of the stream in order, or those before the read that fails |
| BrowserFraming.WriteFrame | crates/agentic-browser-host/src/lib.rs:81-93 | the length and the payload are appended; a length beyond 32 bits is refused before anything is written |
| BrowserFraming.LengthRoundTrip | crates/agentic-browser-host/src/lib.rs:68-89 | a 32-bit length survives both byte orders |
| BrowserFraming.FrameLayout | crates/agentic-browser-host/src/lib.rs:62-93 | a frame is four bytes with the length, least significant first or last as the machine has it, then the payload; it is read back up to 8 MiB and refused beyond |
| BrowserFraming.WriteRead | crates/agentic-browser-host/src/lib.rs:62-93 | reading what was written gives the payloads up to the first beyond 8 MiB, which is written and then refused |
| BrowserFraming.FramesRoundTrip | crates/agentic-browser-host/src/lib.rs:62-93 | payloads of at most 8 MiB come back exactly, then the end of the stream |
| BrowserFraming.MessagesRoundTrip | crates/agentic-browser-host/src/lib.rs:62-93 | for every encoding its decoder undoes: messages of at most 8 MiB come back exactly, then the end of the stream |
| BrowserFraming.WriteThenRead | crates/agentic-browser-host/src/lib.rs:62-93 | messages written one after the other and read back through any fragmenting, interrupted stream that does not fail are exactly these messages, then the end |
| BrowserFraming.PrefixGivesPrefix | crates/agentic-browser-host/src/lib.rs:49-79 | a cut stream gives exactly the payloads of the whole frames before the cut; a strict prefix loses at least one |
| BrowserRouting.Host.RegisterClient | crates/agentic-browser-host/src/lib.rs:177-196 | the client gets the next id |
| BrowserRouting.Host.DropClient | crates/agentic-browser-host/src/lib.rs:206-222 | the client and exactly its routes go |
| BrowserRouting.Host.HandleClientMessage | crates/agentic-browser-host/src/lib.rs:270-322 | a status reply with the request's id and the client count, notifications as they are, requests under a new id with a route |
| BrowserRouting.Host.HandleExtensionMessage | crates/agentic-browser-host/src/lib.rs:324-350 | responses are routed, notifications broadcast, requests answered locally, anything else ignored |
| BrowserRouting.Host.RouteExtensionResponse | crates/agentic-browser-host/src/lib.rs:352-383 | the route is used up; the response goes to its client with the original id, if the client is still there, as specified; `NoMisrouting` and `RequestIsAnswered` say field by field what arrives |
| BrowserRouting.Host.DropDead | crates/agentic-browser-host/src/lib.rs:259-267 | after a broadcast exactly the clients whose write failed go, with their routes |
| BrowserRouting.NoMisrouting | crates/agentic-browser-host/src/lib.rs:270-383 | in every run each client's request goes on unchanged but for its id; each delivered response goes to the client that sent the request it answers, under that request's id, with the response's own method, rest and result, but for the capability flag of an object that answers `getInfo` in standalone mode, and is the only one for it |
| BrowserRouting.IdsAreNotReused | crates/agentic-browser-host/src/lib.rs:177-196 | client ids are never given twice and what was issued stays on record, so no later client gets an earlier one's response |
| BrowserRouting.ConnectedIff | crates/agentic-browser-host/src/lib.rs:177-222 | in every run the clients count from 1 in the order in which they registered, and are connected to the writer they registered with until they are dropped |
| BrowserRouting.RequestIsAnswered | crates/agentic-browser-host/src/lib.rs:270-383 | a request of a connected client stays open through whatever others do, drops of theirs included, and the first response to it is delivered to that client's writer under the id it sent, with the response's method, rest and result, field by field |
| BrowserRouting.ClientMessageOutcomes | crates/agentic-browser-host/src/lib.rs:270-322 | what one client message does: a status reply, a notification passed on, or a request passed on under the new id with a route of its own; other routes and clients stay |
| BrowserRouting.ExtensionMessageOutcomes | crates/agentic-browser-host/src/lib.rs:324-383 | what one extension message does: routed if it answers an open request of a connected client, broadcast to all clients, answered on the spot, or ignored; a route is used up exactly by its response |
| BrowserRouting.DropOutcome | crates/agentic-browser-host/src/lib.rs:206-222 | a drop takes away the client and exactly its routes |
| OAuthStore.OAuth.AuthorizeSubmit | crates/agentic-gpt-hub/src/ingress/oauth.rs:129-182 | validation with the redirect whitelist, API key check and a code for 600 seconds, as specified |
| OAuthStore.OAuth.ExchangeToken | crates/agentic-gpt-hub/src/ingress/oauth.rs:184-261 | the checks of a token request in order, with both clock readings, as specified; the code is consumed once it is looked up; `OAuthGrants.TokenOutcome` says which requests succeed |
| OAuthStore.OAuth.IsValidMcpBearer | crates/agentic-gpt-hub/src/ingress/oauth.rs:263-279 | the API key or a live token, purging expired ones |
| OAuthRuns.SweepsAreInvisible | crates/agentic-gpt-hub/src/ingress/oauth.rs:297-312 | sweeps anywhere in a run, other calls between their two sections included, change no status, no error code and no bearer decision, where no call acts on a clock reading older than that of a sweep before it |
| OAuthRuns.SweepChangesCheckIff | crates/agentic-gpt-hub/src/ingress/oauth.rs:263-312 | for any readings: one more sweep changes a later bearer decision if and only if the token, stored without it, expires behind the check's reading and not behind the sweep's |
| OAuthRuns.LateCheckIsRefused | crates/agentic-gpt-hub/src/ingress/oauth.rs:275-277 | such a run: a check that read the clock before the expiry gets the lock after a sweep that read it behind |
| OAuthRuns.OneTokenPerCode | crates/agentic-gpt-hub/src/ingress/oauth.rs:217-253 | with fresh codes each code yields at most one token (section 4.1.2 of RFC 6749) |
| OAuthRuns.GrantFollowsAuthorization | crates/agentic-gpt-hub/src/ingress/oauth.rs:184-253 | a token is given only after an authorization with the API key, less than 600 seconds before, for the same client and redirect URI and a verifier matching its challenge (section 4.6 of RFC 7636) |
| OAuthRuns.TokenWorksForItsTime | crates/agentic-gpt-hub/src/ingress/oauth.rs:246-279 | for any clock readings, a granted token is accepted if and only if the check reads less than 7 days and no sweep or check before it read more |
| OAuthRuns.InOrderNothingPurges | crates/agentic-gpt-hub/src/ingress/oauth.rs:246-279 | with readings in order, that is the 7 days alone |
| OAuthGrants.AuthorizeOutcome | crates/agentic-gpt-hub/src/ingress/oauth.rs:129-182 | a code is given if and only if the form asks for one with S256, for a named client, a callback on the list and this server, and with the key; a bad form is rejected before the key is looked at; nothing else changes |
| OAuthGrants.CodeStandsIff | crates/agentic-gpt-hub/src/ingress/oauth.rs:165-312 | in every run a code is on record if and only if it was given at some step, not given again since, not named by a complete token request and not swept at or after its ten minutes; and the record is that of this step |
| OAuthGrants.TokenOutcome | crates/agentic-gpt-hub/src/ingress/oauth.rs:184-261 | every token request after every run: granted, with the authorized scope, if and only if its code stands, its ten minutes are not over, client and redirect URI are those authorized, a named resource is the authorized one and the verifier's S256 is the challenge; each of the four error codes under its exact condition, in the code's order |
| OAuthGrants.CheckOutcome | crates/agentic-gpt-hub/src/ingress/oauth.rs:263-279 | every bearer check after every run: accepted are the key and the tokens granted at some step, not purged since, before the end of their seven days |

## Left out

- Cancellation: a caller's future that is dropped; calls are taken to run to completion.
- Pending replays and the event-feedback and confirmation stores: sent or kept outside the guarded sections; the feedback outcome of a call is a free choice that may turn a value into an error.
- Run status columns, expiry of payloads and the report's status gates: a report step sets a result only where none is, or does nothing; which statuses refuse a report is not modelled.
- The command text and its envelope: a command is its request id and hash.
- Heartbeat acknowledgements, close messages on replaced channels and the process cache.
- HTTP, SSE, WebSocket and Unix-socket plumbing, headers, status mapping, logging, SQLite and the registry.
- The socket path in the status reply and the fixed answers to extension requests in the browser host.
- The `patch` field's use by callers and `workdir`, which parsing leaves empty.
- ReadFrame: which bytes are JSON is the decoder's business, a parameter; byte order is one too, where the code takes the machine's.
- WriteFrame: does not model a write to the socket that fails half way, because the connection ends there.
- AuthorizeSubmit: URL parsing and the expected resource URL are parameters, because headers and the configuration are not part of this model.
