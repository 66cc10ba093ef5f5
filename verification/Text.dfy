/** Strings as Rust sees them (sequences of Unicode scalar values), plus the small
    wrapper datatypes the other modules share. */
module Text {

  datatype Option<+T> = None | Some(value: T)

  datatype Result<+R, +E> = Ok(value: R) | Err(error: E) {
    predicate IsFailure() { Err? }

    function PropagateFailure<U>(): Result<U, E>
      requires Err?
    {
      Err(error)
    }

    function Extract(): R
      requires Ok?
    {
      value
    }
  }

  function Min(a: nat, b: nat): nat {
    if a <= b then a else b
  }

  lemma Associative<T>(a: seq<T>, b: seq<T>, c: seq<T>)
    ensures a + (b + c) == a + b + c
  {
  }

  /** The Unicode White_Space property, which `char::is_whitespace` tests. */
  predicate IsWhitespace(c: char) {
    || '\t' <= c <= '\r' || c == ' ' || c == '\U{85}' || c == '\U{A0}' || c == '\U{1680}'
    || '\U{2000}' <= c <= '\U{200A}' || c == '\U{2028}' || c == '\U{2029}'
    || c == '\U{202F}' || c == '\U{205F}' || c == '\U{3000}'
  }

  function TrimEnd(s: string): (t: string)
    ensures t <= s
    ensures t == "" || !IsWhitespace(t[|t| - 1])
    ensures forall i :: |t| <= i < |s| ==> IsWhitespace(s[i])
  {
    if s != "" && IsWhitespace(s[|s| - 1]) then TrimEnd(s[..|s| - 1]) else s
  }

  function TrimStart(s: string): (t: string)
    ensures |t| <= |s| && t == s[|s| - |t|..]
    ensures t == "" || !IsWhitespace(t[0])
  {
    if s != "" && IsWhitespace(s[0]) then TrimStart(s[1..]) else s
  }

  function Trim(s: string): string {
    TrimStart(TrimEnd(s))
  }

  predicate StartsWith(s: string, prefix: string) {
    prefix <= s
  }

  /** No whitespace at the right end, as in every text `trim_end` returns unchanged. */
  predicate RightTrimmed(s: string) {
    s == "" || !IsWhitespace(s[|s| - 1])
  }

  lemma TrimEndKeeps(s: string)
    requires RightTrimmed(s)
    ensures TrimEnd(s) == s
  {
  }

  lemma TrimKeeps(s: string)
    requires RightTrimmed(s) && (s == "" || !IsWhitespace(s[0]))
    ensures Trim(s) == s
  {
    TrimEndKeeps(s);
  }

  /** The pieces between line feeds; the last piece is what follows the last one. */
  function SplitLf(s: string): (pieces: seq<string>)
    ensures pieces != []
  {
    if s == "" then [""]
    else if s[0] == '\n' then [""] + SplitLf(s[1..])
    else
      var rest := SplitLf(s[1..]);
      [[s[0]] + rest[0]] + rest[1..]
  }

  /** The pieces with one line feed between neighbours. */
  function JoinLf(pieces: seq<string>): string {
    if pieces == [] then ""
    else if |pieces| == 1 then pieces[0]
    else pieces[0] + "\n" + JoinLf(pieces[1..])
  }

  predicate NoLf(s: string) {
    forall i :: 0 <= i < |s| ==> s[i] != '\n'
  }

  predicate NoCr(s: string) {
    forall i :: 0 <= i < |s| ==> s[i] != '\r'
  }

  lemma {:induction false} SplitLfOfPlain(s: string)
    requires NoLf(s)
    ensures SplitLf(s) == [s]
  {
    if s != "" {
      SplitLfOfPlain(s[1..]);
      assert [s[0]] + s[1..] == s;
    }
  }

  /** Splitting stops a first piece at the first line feed. */
  lemma {:induction false} SplitLfAtBreak(first: string, rest: string)
    requires NoLf(first)
    ensures SplitLf(first + "\n" + rest) == [first] + SplitLf(rest)
  {
    var s := first + "\n" + rest;
    if first == "" {
      assert s[1..] == rest;
    } else {
      SplitLfAtBreak(first[1..], rest);
      assert s[1..] == first[1..] + "\n" + rest;
      assert [s[0]] + first[1..] == first;
    }
  }

  lemma {:induction false} SplitJoin(pieces: seq<string>)
    requires pieces != []
    requires forall i :: 0 <= i < |pieces| ==> NoLf(pieces[i])
    ensures SplitLf(JoinLf(pieces)) == pieces
  {
    if |pieces| == 1 {
      SplitLfOfPlain(pieces[0]);
    } else {
      SplitJoin(pieces[1..]);
      SplitLfAtBreak(pieces[0], JoinLf(pieces[1..]));
    }
  }

  lemma {:induction false} JoinSplit(s: string)
    ensures JoinLf(SplitLf(s)) == s
    ensures forall i :: 0 <= i < |SplitLf(s)| ==> NoLf(SplitLf(s)[i])
  {
    if s != "" {
      JoinSplit(s[1..]);
      var rest := SplitLf(s[1..]);
      if s[0] == '\n' {
        assert ([""] + rest)[1..] == rest;
      } else {
        var first := [s[0]] + rest[0];
        assert ([first] + rest[1..])[1..] == rest[1..];
      }
      assert [s[0]] + s[1..] == s;
    }
  }

  lemma {:induction false} JoinConcat(a: seq<string>, b: seq<string>)
    requires a != [] && b != []
    ensures JoinLf(a + b) == JoinLf(a) + "\n" + JoinLf(b)
  {
    assert (a + b)[1..] == a[1..] + b;
    if |a| == 1 {
      assert a[1..] + b == b;
    } else {
      JoinConcat(a[1..], b);
      assert a[0] + "\n" + (JoinLf(a[1..]) + "\n" + JoinLf(b)) == a[0] + "\n" + JoinLf(a[1..]) + "\n" + JoinLf(b);
    }
  }

  lemma SplitConcat(a: string, b: string)
    ensures SplitLf(a + "\n" + b) == SplitLf(a) + SplitLf(b)
  {
    hide SplitLf, JoinLf;
    JoinSplit(a);
    JoinSplit(b);
    JoinConcat(SplitLf(a), SplitLf(b));
    SplitJoin(SplitLf(a) + SplitLf(b));
  }

  /** Every line with a line feed behind it. */
  function LfText(lines: seq<string>): string {
    if lines == [] then "" else lines[0] + "\n" + LfText(lines[1..])
  }

  lemma {:induction false} JoinWithBlank(lines: seq<string>)
    ensures JoinLf(lines + [""]) == LfText(lines)
  {
    if lines != [] {
      assert (lines + [""])[1..] == lines[1..] + [""];
      JoinWithBlank(lines[1..]);
    }
  }
}
