/** What each level of the line search lets two lines differ in (seek_sequence.rs:40-112). */
module LineKeys {
  import opened Text
  import opened LineSearch

  predicate Blank(s: string) {
    forall i :: 0 <= i < |s| ==> IsWhitespace(s[i])
  }

  /** `s` is `core` with nothing but whitespace behind it. */
  predicate Followed(s: string, core: string) {
    core <= s && Blank(s[|core|..])
  }

  /** `s` is `core` with nothing but whitespace around it. */
  predicate Surrounded(s: string, core: string) {
    exists i :: 0 <= i && i + |core| <= |s| && SitsAt(s, core, i)
  }

  predicate SitsAt(s: string, core: string, i: nat)
    requires i + |core| <= |s|
  {
    s[i..i + |core|] == core && Blank(s[..i]) && Blank(s[i + |core|..])
  }

  predicate IsDash(c: char) {
    || c == '-' || c == '\U{2010}' || c == '\U{2011}' || c == '\U{2012}' || c == '\U{2013}' || c == '\U{2014}'
    || c == '\U{2015}' || c == '\U{2212}'
  }

  predicate IsSingleQuote(c: char) {
    c == '\'' || c == '\U{2018}' || c == '\U{2019}' || c == '\U{201A}' || c == '\U{201B}'
  }

  predicate IsDoubleQuote(c: char) {
    c == '"' || c == '\U{201C}' || c == '\U{201D}' || c == '\U{201E}' || c == '\U{201F}'
  }

  predicate IsSpace(c: char) {
    || c == ' ' || c == '\U{A0}' || c == '\U{2002}' || c == '\U{2003}' || c == '\U{2004}' || c == '\U{2005}'
    || c == '\U{2006}' || c == '\U{2007}' || c == '\U{2008}' || c == '\U{2009}' || c == '\U{200A}'
    || c == '\U{202F}' || c == '\U{205F}' || c == '\U{3000}'
  }

  /** The same character, or two of one kind. */
  predicate Alike(c: char, d: char) {
    || c == d
    || (IsDash(c) && IsDash(d))
    || (IsSingleQuote(c) && IsSingleQuote(d))
    || (IsDoubleQuote(c) && IsDoubleQuote(d))
    || (IsSpace(c) && IsSpace(d))
  }

  predicate AllAlike(a: string, b: string) {
    |a| == |b| && forall i :: 0 <= i < |a| ==> Alike(a[i], b[i])
  }

  lemma AlikeIff(c: char, d: char)
    ensures NormaliseChar(c) == NormaliseChar(d) <==> Alike(c, d)
    ensures Alike(c, d) ==> (IsWhitespace(c) <==> IsWhitespace(d))
  {
    Kind(c);
    Kind(d);
    hide IsDash, IsSingleQuote, IsDoubleQuote, IsSpace, NormaliseChar, IsWhitespace;
  }

  lemma Kind(c: char)
    ensures NormaliseChar(c) ==
      if IsDash(c) then '-' else if IsSingleQuote(c) then '\'' else if IsDoubleQuote(c) then '"'
      else if IsSpace(c) then ' ' else c
    ensures !IsDash(c) ==> c != '-'
    ensures !IsSingleQuote(c) ==> c != '\''
    ensures !IsDoubleQuote(c) ==> c != '"'
    ensures !IsSpace(c) ==> c != ' '
    ensures IsSpace(c) ==> IsWhitespace(c) && !IsDash(c) && !IsSingleQuote(c) && !IsDoubleQuote(c)
    ensures IsDash(c) || IsSingleQuote(c) || IsDoubleQuote(c) ==> !IsWhitespace(c)
    ensures IsDash(c) ==> !IsSingleQuote(c) && !IsDoubleQuote(c)
    ensures IsSingleQuote(c) ==> !IsDoubleQuote(c)
  {
  }

  lemma NormaliseIff(a: string, b: string)
    ensures NormaliseChars(a) == NormaliseChars(b) <==> AllAlike(a, b)
  {
    hide Alike, NormaliseChar;
    forall i | 0 <= i < |a| && i < |b|
      ensures NormaliseChars(a)[i] == NormaliseChars(b)[i] <==> Alike(a[i], b[i])
    {
      AlikeIff(a[i], b[i]);
    }
    if AllAlike(a, b) {
      assert NormaliseChars(a) == NormaliseChars(b);
    }
  }

  // ---------------------------------------------------------------- trimming

  lemma TrimEndFollows(s: string)
    ensures Followed(s, TrimEnd(s))
  {
    hide IsWhitespace;
  }

  lemma {:induction false} TrimEndOfBlank(core: string, s: string)
    requires Followed(s, core)
    ensures TrimEnd(s) == TrimEnd(core)
    decreases |s|
  {
    hide IsWhitespace;
    if |s| == |core| {
      assert s == core;
    } else {
      assert IsWhitespace(s[|core|..][|s| - 1 - |core|]);
      var front := s[..|s| - 1];
      assert front[|core|..] == s[|core|..][..|s| - 1 - |core|];
      TrimEndOfBlank(core, front);
    }
  }

  lemma {:induction false} TrimStartOfBlank(s: string, i: nat)
    requires i <= |s| && Blank(s[..i])
    ensures TrimStart(s) == TrimStart(s[i..])
    decreases |s|
  {
    hide IsWhitespace, Blank;
    if i == 0 {
      assert s[0..] == s;
    } else {
      BlankFrom(s, i);
      TrimStartOfBlank(s[1..], i - 1);
      assert s[1..][i - 1..] == s[i..];
    }
  }

  lemma BlankFrom(s: string, i: nat)
    requires 0 < i <= |s| && Blank(s[..i])
    ensures IsWhitespace(s[0]) && Blank(s[1..][..i - 1])
  {
    hide IsWhitespace;
    var blank, rest := s[..i], s[1..][..i - 1];
    assert IsWhitespace(blank[0]);
    forall k | 0 <= k < |rest|
      ensures IsWhitespace(rest[k])
    {
      assert rest[k] == blank[k + 1];
    }
  }

  lemma {:induction false} BlankTrims(s: string)
    requires Blank(s)
    ensures TrimEnd(s) == "" && TrimStart(s) == ""
  {
    hide IsWhitespace, TrimEnd, TrimStart;
    assert s[0..] == s && s[|s|..] == "";
    TrimEndOfBlank("", s);
    TrimStartOfBlank(s, |s|);
    NothingTrims();
  }

  lemma NothingTrims()
    ensures TrimEnd("") == "" && TrimStart("") == ""
  {
  }

  lemma {:induction false} TrimEndBehind(p: string, s: string)
    requires TrimEnd(s) != ""
    ensures TrimEnd(p + s) == p + TrimEnd(s)
    decreases |s|
  {
    hide IsWhitespace;
    var last := s[|s| - 1];
    assert (p + s)[|p + s| - 1] == last;
    if IsWhitespace(last) {
      assert (p + s)[..|p + s| - 1] == p + s[..|s| - 1];
      TrimEndBehind(p, s[..|s| - 1]);
    }
  }

  lemma TrimmedIsBlank(s: string)
    ensures TrimEnd(s) == "" ==> Blank(s)
  {
    hide IsWhitespace, TrimEnd;
  }

  /** Whitespace around a text does not change what trimming leaves of it. */
  lemma TrimOfSurrounded(s: string, core: string)
    requires Surrounded(s, core)
    ensures Trim(s) == Trim(core)
  {
    hide IsWhitespace, TrimEnd, TrimStart;
    var i :| 0 <= i && i + |core| <= |s| && SitsAt(s, core, i);
    var front := s[..i + |core|];
    assert front == s[..i] + core;
    TrimEndOfBlank(front, s);
    if TrimEnd(core) == "" {
      TrimmedIsBlank(core);
      BlankTrims(front);
      NothingTrims();
    } else {
      TrimEndBehind(s[..i], core);
      var t := s[..i] + TrimEnd(core);
      assert t[..i] == s[..i] && t[i..] == TrimEnd(core);
      TrimStartOfBlank(t, i);
    }
  }

  lemma TrimSurrounds(s: string)
    ensures Surrounded(s, Trim(s))
  {
    hide IsWhitespace, TrimEnd, TrimStart;
    TrimEndFollows(s);
    var t := TrimEnd(s);
    var core := TrimStart(t);
    var i := |t| - |core|;
    StartIsBlank(t);
    assert s[..i] == t[..i] && s[i..i + |core|] == core;
    assert SitsAt(s, core, i);
  }

  lemma {:induction false} StartIsBlank(t: string)
    ensures Blank(t[..|t| - |TrimStart(t)|])
  {
    hide IsWhitespace;
    if t != "" && IsWhitespace(t[0]) {
      StartIsBlank(t[1..]);
      var n := |t| - |TrimStart(t)|;
      assert TrimStart(t) == TrimStart(t[1..]);
      BlankBehind(t, n);
    }
  }

  lemma BlankBehind(t: string, n: nat)
    requires 0 < n <= |t| && IsWhitespace(t[0]) && Blank(t[1..][..n - 1])
    ensures Blank(t[..n])
  {
    hide IsWhitespace;
    forall i | 0 <= i < n
      ensures IsWhitespace(t[..n][i])
    {
      if i > 0 {
        assert t[..n][i] == t[1..][..n - 1][i - 1];
      }
    }
  }

  lemma {:induction false} AlikeTrimEnd(a: string, b: string)
    requires AllAlike(a, b)
    ensures AllAlike(TrimEnd(a), TrimEnd(b))
    decreases |a|
  {
    hide IsWhitespace, Alike;
    if a != "" {
      AlikeIff(a[|a| - 1], b[|b| - 1]);
      AlikeTrimEnd(a[..|a| - 1], b[..|b| - 1]);
    }
  }

  lemma {:induction false} AlikeTrimStart(a: string, b: string)
    requires AllAlike(a, b)
    ensures AllAlike(TrimStart(a), TrimStart(b))
    decreases |a|
  {
    hide IsWhitespace, Alike;
    if a != "" {
      AlikeIff(a[0], b[0]);
      AlikeTrimStart(a[1..], b[1..]);
    }
  }

  // ---------------------------------------------------------------- the levels

  /** Two lines match at a level exactly if they differ in nothing but this: whitespace at the end, then
      whitespace at both ends, then also which dash, quote or space stands for another of its kind. */
  lemma MatchIff(level: Level, a: string, b: string)
    ensures Key(level, a) == Key(level, b) <==>
      match level
      case Exact => a == b
      case IgnoreTrailing => exists core :: Followed(a, core) && Followed(b, core)
      case IgnoreSurrounding => exists core :: Surrounded(a, core) && Surrounded(b, core)
      case Normalised => exists core, like :: Surrounded(a, core) && Surrounded(b, like) && AllAlike(core, like)
  {
    hide TrimEnd, Trim, Followed, Surrounded, AllAlike, NormaliseChars;
    match level {
      case Exact =>
      case IgnoreTrailing => TrailingIff(a, b);
      case IgnoreSurrounding => SurroundingIff(a, b);
      case Normalised => NormalisedIff(a, b);
    }
  }

  lemma TrailingIff(a: string, b: string)
    ensures TrimEnd(a) == TrimEnd(b) <==> exists core :: Followed(a, core) && Followed(b, core)
  {
    hide TrimEnd, Followed;
    TrimEndFollows(a);
    TrimEndFollows(b);
    forall core | Followed(a, core) && Followed(b, core)
      ensures TrimEnd(a) == TrimEnd(b)
    {
      TrimEndOfBlank(core, a);
      TrimEndOfBlank(core, b);
    }
  }

  lemma SurroundingIff(a: string, b: string)
    ensures Trim(a) == Trim(b) <==> exists core :: Surrounded(a, core) && Surrounded(b, core)
  {
    hide Trim, Surrounded;
    TrimSurrounds(a);
    TrimSurrounds(b);
    forall core | Surrounded(a, core) && Surrounded(b, core)
      ensures Trim(a) == Trim(b)
    {
      TrimOfSurrounded(a, core);
      TrimOfSurrounded(b, core);
    }
  }

  lemma NormalisedIff(a: string, b: string)
    ensures Normalise(a) == Normalise(b)
            <==> exists core, like :: Surrounded(a, core) && Surrounded(b, like) && AllAlike(core, like)
  {
    hide Trim, Surrounded, AllAlike, NormaliseChars;
    NormaliseIff(Trim(a), Trim(b));
    TrimSurrounds(a);
    TrimSurrounds(b);
    forall core, like | Surrounded(a, core) && Surrounded(b, like) && AllAlike(core, like)
      ensures AllAlike(Trim(a), Trim(b))
    {
      TrimOfSurrounded(a, core);
      TrimOfSurrounded(b, like);
      AlikeTrim(core, like);
    }
  }

  lemma AlikeTrim(a: string, b: string)
    requires AllAlike(a, b)
    ensures AllAlike(Trim(a), Trim(b))
  {
    hide AllAlike, TrimEnd, TrimStart;
    AlikeTrimEnd(a, b);
    AlikeTrimStart(TrimEnd(a), TrimEnd(b));
  }
}
