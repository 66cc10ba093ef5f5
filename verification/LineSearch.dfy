/** The four-level search for a block of lines (seek_sequence.rs). */
module LineSearch {
  import opened Text

  datatype UpdateMode = NormalizeToLf | PreserveLineEndings

  /** How two lines are compared, strictest first. */
  datatype Level = Exact | IgnoreTrailing | IgnoreSurrounding | Normalised

  function NormaliseChar(c: char): char {
    if '\U{2010}' <= c <= '\U{2015}' || c == '\U{2212}' then '-'
    else if '\U{2018}' <= c <= '\U{201B}' then '\''
    else if '\U{201C}' <= c <= '\U{201F}' then '"'
    else if || c == '\U{A0}' || '\U{2002}' <= c <= '\U{200A}'
            || c == '\U{202F}' || c == '\U{205F}' || c == '\U{3000}' then ' '
    else c
  }

  function NormaliseChars(s: string): string {
    seq(|s|, i requires 0 <= i < |s| => NormaliseChar(s[i]))
  }

  function Normalise(s: string): string {
    NormaliseChars(Trim(s))
  }

  /** What is left of a line for a comparison at `level`. */
  function Key(level: Level, line: string): string {
    match level
    case Exact => line
    case IgnoreTrailing => TrimEnd(line)
    case IgnoreSurrounding => Trim(line)
    case Normalised => Normalise(line)
  }

  function Rank(level: Level): nat {
    match level
    case Exact => 0
    case IgnoreTrailing => 1
    case IgnoreSurrounding => 2
    case Normalised => 3
  }

  predicate MatchesAt(level: Level, lines: seq<string>, pattern: seq<string>, i: nat) {
    && i + |pattern| <= |lines|
    && forall k :: 0 <= k < |pattern| ==> Key(level, lines[i + k]) == Key(level, pattern[k])
  }

  /** The least match at or after `i`. */
  function FirstMatch(level: Level, lines: seq<string>, pattern: seq<string>, i: nat): (r: Option<nat>)
    ensures r.Some? ==> i <= r.value && MatchesAt(level, lines, pattern, r.value)
    ensures forall j :: i <= j < (if r.Some? then r.value else |lines| + 1) ==> !MatchesAt(level, lines, pattern, j)
    decreases |lines| + 1 - i
  {
    hide Key;
    if i + |pattern| > |lines| then None
    else if MatchesAt(level, lines, pattern, i) then Some(i)
    else FirstMatch(level, lines, pattern, i + 1)
  }

  /** Where the search starts; a pattern for the end of the file can only sit there. */
  function SearchStart(lines: seq<string>, pattern: seq<string>, start: nat, eof: bool, mode: UpdateMode): nat
    requires |pattern| <= |lines|
  {
    if !eof then start
    else
      var eofStart := |lines| - |pattern|;
      if mode == PreserveLineEndings && eofStart < start then start else eofStart
  }

  function FirstLevelMatch(lines: seq<string>, pattern: seq<string>, i: nat, level: Level): Option<nat>
    decreases 3 - Rank(level)
  {
    var found := FirstMatch(level, lines, pattern, i);
    if found.Some? then found
    else match level
      case Exact => FirstLevelMatch(lines, pattern, i, IgnoreTrailing)
      case IgnoreTrailing => FirstLevelMatch(lines, pattern, i, IgnoreSurrounding)
      case IgnoreSurrounding => FirstLevelMatch(lines, pattern, i, Normalised)
      case Normalised => None
  }

  function Seek(lines: seq<string>, pattern: seq<string>, start: nat, eof: bool, mode: UpdateMode): Option<nat> {
    if pattern == [] then Some(start)
    else if |pattern| > |lines| then None
    else FirstLevelMatch(lines, pattern, SearchStart(lines, pattern, start, eof, mode), Exact)
  }

  /** One pass of the search: every index in turn, comparing line by line until one differs. */
  method Scan(level: Level, lines: seq<string>, pattern: seq<string>, searchStart: nat)
    returns (found: Option<nat>)
    requires |pattern| <= |lines|
    ensures found == FirstMatch(level, lines, pattern, searchStart)
  {
    hide Key;
    var i := searchStart;
    while i <= |lines| - |pattern|
      invariant searchStart <= i
      invariant FirstMatch(level, lines, pattern, searchStart) == FirstMatch(level, lines, pattern, i)
    {
      var ok := true;
      var k := 0;
      while k < |pattern| && ok
        invariant 0 <= k <= |pattern|
        invariant ok ==> forall j :: 0 <= j < k ==> Key(level, lines[i + j]) == Key(level, pattern[j])
        invariant !ok ==> !MatchesAt(level, lines, pattern, i)
      {
        if Key(level, lines[i + k]) != Key(level, pattern[k]) {
          ok := false;
        }
        k := k + 1;
      }
      if ok {
        return Some(i);
      }
      i := i + 1;
    }
    return None;
  }

  method SeekSequence(lines: seq<string>, pattern: seq<string>, start: nat, eof: bool, mode: UpdateMode)
    returns (found: Option<nat>)
    ensures found == Seek(lines, pattern, start, eof, mode)
  {
    if pattern == [] {
      return Some(start);
    }
    if |pattern| > |lines| {
      return None;
    }
    var searchStart := SearchStart(lines, pattern, start, eof, mode);
    found := Scan(Exact, lines, pattern, searchStart);
    if found.None? {
      found := Scan(IgnoreTrailing, lines, pattern, searchStart);
    }
    if found.None? {
      found := Scan(IgnoreSurrounding, lines, pattern, searchStart);
    }
    if found.None? {
      found := Scan(Normalised, lines, pattern, searchStart);
    }
  }

  /** A match at one level is a match at every more lenient one. */
  lemma LevelsNest(strict: Level, lenient: Level, lines: seq<string>, pattern: seq<string>, i: nat)
    requires Rank(strict) <= Rank(lenient)
    requires MatchesAt(strict, lines, pattern, i)
    ensures MatchesAt(lenient, lines, pattern, i)
  {
    forall k | 0 <= k < |pattern|
      ensures Key(lenient, lines[i + k]) == Key(lenient, pattern[k])
    {
      assert Key(strict, lines[i + k]) == Key(strict, pattern[k]);
      KeysNest(strict, lenient, lines[i + k], pattern[k]);
    }
  }

  lemma KeysNest(strict: Level, lenient: Level, a: string, b: string)
    requires Rank(strict) <= Rank(lenient) && Key(strict, a) == Key(strict, b)
    ensures Key(lenient, a) == Key(lenient, b)
  {
  }

  /** `i` is the answer: the first match, at the strictest level that has one, from `from` on. */
  ghost predicate StrictestFirst(lines: seq<string>, pattern: seq<string>, from: nat, i: nat, level: Level) {
    && from <= i
    && MatchesAt(level, lines, pattern, i)
    && (forall j :: from <= j < i ==> !MatchesAt(level, lines, pattern, j))
    && (forall l, j :: Rank(l) < Rank(level) && from <= j ==> !MatchesAt(l, lines, pattern, j))
  }

  /** The search finds the least index of the strictest level with any match, and fails
      only where no normalised match exists. */
  lemma SeekContract(lines: seq<string>, pattern: seq<string>, start: nat, eof: bool, mode: UpdateMode)
    requires pattern != [] && |pattern| <= |lines|
    ensures var from := SearchStart(lines, pattern, start, eof, mode);
      var r := Seek(lines, pattern, start, eof, mode);
      && (r.None? <==> forall j :: from <= j ==> !MatchesAt(Normalised, lines, pattern, j))
      && (r.Some? ==> exists level :: StrictestFirst(lines, pattern, from, r.value, level))
  {
    hide MatchesAt;
    var from := SearchStart(lines, pattern, start, eof, mode);
    var r := Seek(lines, pattern, start, eof, mode);
    MatchesFit(lines, pattern);
    var exact := FirstMatch(Exact, lines, pattern, from);
    var trailing := FirstMatch(IgnoreTrailing, lines, pattern, from);
    var surrounding := FirstMatch(IgnoreSurrounding, lines, pattern, from);
    if exact.Some? {
      assert StrictestFirst(lines, pattern, from, r.value, Exact);
      LevelsNest(Exact, Normalised, lines, pattern, r.value);
    } else if trailing.Some? {
      assert StrictestFirst(lines, pattern, from, r.value, IgnoreTrailing);
      LevelsNest(IgnoreTrailing, Normalised, lines, pattern, r.value);
    } else if surrounding.Some? {
      assert StrictestFirst(lines, pattern, from, r.value, IgnoreSurrounding);
      LevelsNest(IgnoreSurrounding, Normalised, lines, pattern, r.value);
    } else if r.Some? {
      assert StrictestFirst(lines, pattern, from, r.value, Normalised);
    }
  }

  /** The pattern stands somewhere in the search range, up to whitespace and punctuation. */
  ghost predicate Occurs(lines: seq<string>, pattern: seq<string>, start: nat, eof: bool, mode: UpdateMode) {
    pattern == [] ||
    (|pattern| <= |lines|
     && exists j :: SearchStart(lines, pattern, start, eof, mode) <= j && MatchesAt(Normalised, lines, pattern, j))
  }

  lemma SeekIffOccurs(lines: seq<string>, pattern: seq<string>, start: nat, eof: bool, mode: UpdateMode)
    ensures var r := Seek(lines, pattern, start, eof, mode);
      && (r.Some? <==> Occurs(lines, pattern, start, eof, mode))
      && (r.Some? && pattern != [] ==> MatchesAt(Normalised, lines, pattern, r.value))
  {
    hide MatchesAt;
    if pattern != [] && |pattern| <= |lines| {
      SeekContract(lines, pattern, start, eof, mode);
      hide Seek;
      var from, r := SearchStart(lines, pattern, start, eof, mode), Seek(lines, pattern, start, eof, mode);
      if r.Some? {
        var level :| StrictestFirst(lines, pattern, from, r.value, level);
        LevelsNest(level, Normalised, lines, pattern, r.value);
      }
    }
  }

  lemma MatchesFit(lines: seq<string>, pattern: seq<string>)
    ensures forall level, j: nat :: MatchesAt(level, lines, pattern, j) ==> j + |pattern| <= |lines|
  {
  }

  /** A non-empty end-of-file pattern is only ever found at the end of the file. */
  lemma EofMatchesAtEnd(lines: seq<string>, pattern: seq<string>, start: nat, mode: UpdateMode)
    requires pattern != []
    ensures var r := Seek(lines, pattern, start, true, mode);
      r.Some? ==> r.value + |pattern| == |lines| && (mode == PreserveLineEndings ==> start <= r.value)
  {
    if |pattern| <= |lines| {
      SeekContract(lines, pattern, start, true, mode);
    }
  }

  /** The search as its documentation describes it: the end of the file first, then from `start`. */
  function DocumentedEofSeek(lines: seq<string>, pattern: seq<string>, start: nat, mode: UpdateMode): Option<nat> {
    var atEnd := Seek(lines, pattern, start, true, mode);
    if atEnd.Some? then atEnd else Seek(lines, pattern, start, false, mode)
  }

  /** The documented fallback does not exist, so the code meets the description exactly when
      the end of the file matches or nothing from `start` on does. */
  lemma EofFallbackIff(lines: seq<string>, pattern: seq<string>, start: nat, mode: UpdateMode)
    requires pattern != [] && |pattern| <= |lines|
    ensures Seek(lines, pattern, start, true, mode) == DocumentedEofSeek(lines, pattern, start, mode)
            <==> MatchesAt(Normalised, lines, pattern, SearchStart(lines, pattern, start, true, mode))
                 || forall j :: start <= j ==> !MatchesAt(Normalised, lines, pattern, j)
  {
    hide MatchesAt;
    MatchesFit(lines, pattern);
    SeekContract(lines, pattern, start, true, mode);
    SeekContract(lines, pattern, start, false, mode);
  }

  /** A file where the pattern stands verbatim at `start` and the end-of-file search fails. */
  lemma EofHasNoFallback(mode: UpdateMode)
    ensures Seek(["a", "b"], ["a"], 0, true, mode) == None
    ensures DocumentedEofSeek(["a", "b"], ["a"], 0, mode) == Some(0)
  {
    hide Normalise;
    var lines, pattern := ["a", "b"], ["a"];
    NormaliseLetter("a");
    NormaliseLetter("b");
    assert !MatchesAt(Normalised, lines, pattern, 1) by {
      assert Key(Normalised, lines[1 + 0]) != Key(Normalised, pattern[0]);
    }
    assert MatchesAt(Exact, lines, pattern, 0);
    MatchesFit(lines, pattern);
    hide MatchesAt;
    SeekContract(lines, pattern, 0, true, mode);
  }

  lemma NormaliseLetter(s: string)
    requires |s| == 1 && 'a' <= s[0] <= 'z'
    ensures Normalise(s) == s
  {
    hide IsWhitespace, NormaliseChar, Trim;
    LetterStays(s[0]);
    TrimKeeps(s);
    assert NormaliseChars(s) == s;
  }

  lemma LetterStays(c: char)
    requires 'a' <= c <= 'z'
    ensures !IsWhitespace(c) && NormaliseChar(c) == c
  {
  }

  /** What `Seek` returns lies inside the file, at or after `start` when the mode keeps it there. */
  lemma SeekInBounds(lines: seq<string>, pattern: seq<string>, start: nat, eof: bool, mode: UpdateMode)
    requires start <= |lines|
    ensures var r := Seek(lines, pattern, start, eof, mode);
      r.Some? ==> r.value + |pattern| <= |lines| && (!eof || mode == PreserveLineEndings ==> start <= r.value)
  {
    if pattern != [] && |pattern| <= |lines| {
      SeekContract(lines, pattern, start, eof, mode);
    }
  }

  /** A block that stands verbatim at `start` is found right there. */
  lemma SeekAtStart(lines: seq<string>, pattern: seq<string>, start: nat)
    requires start + |pattern| <= |lines| && lines[start..start + |pattern|] == pattern
    ensures Seek(lines, pattern, start, false, PreserveLineEndings) == Some(start)
  {
    forall k | 0 <= k < |pattern|
      ensures lines[start + k] == pattern[k]
    {
      assert lines[start..start + |pattern|][k] == lines[start + k];
    }
    assert MatchesAt(Exact, lines, pattern, start);
  }
}
