/** The parsed form of a patch (parser.rs). */
module Patch {
  import opened Text

  datatype Hunk =
    | AddFile(path: string, contents: string)
    | DeleteFile(path: string)
    | UpdateFile(path: string, movePath: Option<string>, chunks: seq<UpdateFileChunk>)

  /** A block of old lines to be found and replaced. `contextLineIndices` pairs the indices
      of lines that were parsed as context, and so stand in both lists. */
  datatype UpdateFileChunk = UpdateFileChunk(
    changeContext: Option<string>,
    oldLines: seq<string>,
    newLines: seq<string>,
    contextLineIndices: seq<(nat, nat)>,
    isEndOfFile: bool)
  {
    predicate IsEmpty() { oldLines == [] && newLines == [] }

    function PushContextLine(line: string): UpdateFileChunk {
      this.(oldLines := oldLines + [line],
            newLines := newLines + [line],
            contextLineIndices := contextLineIndices + [(|oldLines|, |newLines|)])
    }

    function PushAdded(line: string): UpdateFileChunk {
      this.(newLines := newLines + [line])
    }

    function PushRemoved(line: string): UpdateFileChunk {
      this.(oldLines := oldLines + [line])
    }

    /** Context pairs rise strictly on both sides and name equal lines. */
    ghost predicate ContextOk() {
      && Increasing(contextLineIndices, 0, 0)
      && forall k :: 0 <= k < |contextLineIndices| ==>
        && contextLineIndices[k].0 < |oldLines| && contextLineIndices[k].1 < |newLines|
        && oldLines[contextLineIndices[k].0] == newLines[contextLineIndices[k].1]
    }

    lemma PushKeepsContextOk(line: string)
      requires ContextOk()
      ensures PushContextLine(line).ContextOk() && PushAdded(line).ContextOk() && PushRemoved(line).ContextOk()
    {
      IncreasingSnoc(contextLineIndices, 0, 0, (|oldLines|, |newLines|));
    }
  }

  const EMPTY_CHUNK := UpdateFileChunk(None, [], [], [], false)

  /** Index pairs that rise strictly in both components, from (`old`, `new`) on. */
  predicate Increasing(pairs: seq<(nat, nat)>, oldFrom: nat, newFrom: nat) {
    pairs == [] ||
    (oldFrom <= pairs[0].0 && newFrom <= pairs[0].1 && Increasing(pairs[1..], pairs[0].0 + 1, pairs[0].1 + 1))
  }

  lemma {:induction false} IncreasingSnoc(pairs: seq<(nat, nat)>, oldFrom: nat, newFrom: nat, last: (nat, nat))
    requires Increasing(pairs, oldFrom, newFrom)
    requires oldFrom <= last.0 && newFrom <= last.1
    requires forall k :: 0 <= k < |pairs| ==> pairs[k].0 < last.0 && pairs[k].1 < last.1
    ensures Increasing(pairs + [last], oldFrom, newFrom)
  {
    if pairs != [] {
      IncreasingSnoc(pairs[1..], pairs[0].0 + 1, pairs[0].1 + 1, last);
      assert (pairs + [last])[1..] == pairs[1..] + [last];
    }
  }
}
