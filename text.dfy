/** The JavaScript string operations the simulated-git engine relies on:
    `trim`, `split` on one character, `includes`, ASCII case mapping,
    `padEnd` and the decimal rendering of a count. */
module Text {

  /** The code points ECMAScript's `String.prototype.trim` strips:
      its WhiteSpace and LineTerminator productions. */
  predicate IsJsSpace(c: char) {
    c == '\t' || c == '\n' || c == '\U{000B}' || c == '\U{000C}' || c == '\r' ||
    c == ' ' || c == '\U{00A0}' || c == '\U{1680}' || ('\U{2000}' <= c <= '\U{200A}') ||
    c == '\U{2028}' || c == '\U{2029}' || c == '\U{202F}' || c == '\U{205F}' ||
    c == '\U{3000}' || c == '\U{FEFF}'
  }

  /** Every character of `s` is white space (the empty string included). */
  predicate IsBlank(s: string) {
    forall i :: 0 <= i < |s| ==> IsJsSpace(s[i])
  }

  function TrimStart(s: string): (r: string)
    ensures |r| <= |s| && r == s[|s| - |r|..]
    ensures r == [] || !IsJsSpace(r[0])
    ensures IsBlank(s[..|s| - |r|])
  {
    if |s| > 0 && IsJsSpace(s[0]) then TrimStart(s[1..]) else s
  }

  function TrimEnd(s: string): (r: string)
    ensures |r| <= |s| && r == s[..|r|]
    ensures r == [] || !IsJsSpace(r[|r| - 1])
    ensures IsBlank(s[|r|..])
  {
    if |s| > 0 && IsJsSpace(s[|s| - 1]) then
      var r := TrimEnd(s[..|s| - 1]);
      assert s[|r|..] == s[..|s| - 1][|r|..] + [s[|s| - 1]];
      r
    else s
  }

  /** `s.trim()`: `s` without its leading and trailing white space. */
  function Trim(s: string): (r: string)
    ensures |r| <= |s|
    ensures r == [] || (!IsJsSpace(r[0]) && !IsJsSpace(r[|r| - 1]))
    ensures exists i, j :: 0 <= i <= j <= |s| && r == s[i..j] && IsBlank(s[..i]) && IsBlank(s[j..])
  {
    var t := TrimStart(s);
    var r := TrimEnd(t);
    TrimPieces(s, t, r);
    r
  }

  lemma TrimPieces(s: string, t: string, r: string)
    requires |t| <= |s| && t == s[|s| - |t|..] && IsBlank(s[..|s| - |t|])
    requires |r| <= |t| && r == t[..|r|] && IsBlank(t[|r|..])
    ensures exists i, j :: 0 <= i <= j <= |s| && r == s[i..j] && IsBlank(s[..i]) && IsBlank(s[j..])
  {
    var i := |s| - |t|;
    assert r == s[i..i + |r|];
    assert s[i + |r|..] == t[|r|..];
  }

  lemma BlankAppend(a: string, b: string)
    requires IsBlank(a) && IsBlank(b)
    ensures IsBlank(a + b)
  {
    forall i | 0 <= i < |a + b| ensures IsJsSpace((a + b)[i]) {
      if i < |a| { assert (a + b)[i] == a[i]; } else { assert (a + b)[i] == b[i - |a|]; }
    }
  }

  /** A string trims to nothing exactly when it is all white space. */
  lemma TrimEmptyIffBlank(s: string)
    ensures Trim(s) == [] <==> IsBlank(s)
  {
    if Trim(s) == [] {
      TrimEmptyIsBlank(s);
    } else if IsBlank(s) {
      BlankTrimsEmpty(s);
    }
  }

  lemma TrimEmptyIsBlank(s: string)
    requires Trim(s) == []
    ensures IsBlank(s)
  {
    var i, j :| 0 <= i <= j <= |s| && Trim(s) == s[i..j] && IsBlank(s[..i]) && IsBlank(s[j..]);
    assert s == s[..i] + s[j..];
    BlankAppend(s[..i], s[j..]);
  }

  lemma BlankTrimsEmpty(s: string)
    requires IsBlank(s)
    ensures TrimStart(s) == []
  {
  }

  /** `s.split(sep)` for a one-character separator: the pieces between
      the separators, an empty piece wherever two separators (or an end
      and a separator) meet, so there is always at least one piece. */
  function SplitOn(s: string, sep: char): (r: seq<string>)
    ensures |r| >= 1
    ensures forall i :: 0 <= i < |r| ==> sep !in r[i]
  {
    if s == [] then [[]]
    else
      var init := SplitOn(s[..|s| - 1], sep);
      var c := s[|s| - 1];
      if c == sep then init + [[]]
      else init[..|init| - 1] + [init[|init| - 1] + [c]]
  }

  /** `pieces.join(sep)`. */
  function JoinWith(pieces: seq<string>, sep: char): string
    requires |pieces| >= 1
  {
    if |pieces| == 1 then pieces[0]
    else JoinWith(pieces[..|pieces| - 1], sep) + [sep] + pieces[|pieces| - 1]
  }

  /** `parts.join(sep)` for a separator of any length; `""` for no parts. */
  function JoinText(parts: seq<string>, sep: string): string {
    if parts == [] then ""
    else if |parts| == 1 then parts[0]
    else JoinText(parts[..|parts| - 1], sep) + sep + parts[|parts| - 1]
  }

  /** Splitting loses nothing: joining the pieces back gives the input. */
  lemma {:induction false} JoinSplit(s: string, sep: char)
    ensures JoinWith(SplitOn(s, sep), sep) == s
  {
    if s != [] {
      var init := SplitOn(s[..|s| - 1], sep);
      JoinSplit(s[..|s| - 1], sep);
      var c := s[|s| - 1];
      if c == sep {
        assert (init + [[]])[..|init|] == init;
      } else {
        JoinLast(init, sep, c);
      }
      assert s == s[..|s| - 1] + [c];
    }
  }

  /** Appending to the last piece appends to the joined string. */
  lemma {:induction false} JoinLast(pieces: seq<string>, sep: char, c: char)
    requires |pieces| >= 1
    ensures JoinWith(pieces[..|pieces| - 1] + [pieces[|pieces| - 1] + [c]], sep)
         == JoinWith(pieces, sep) + [c]
  {
    var n := |pieces|;
    var q := pieces[..n - 1] + [pieces[n - 1] + [c]];
    if n > 1 {
      assert q[..n - 1] == pieces[..n - 1];
    }
  }

  /** Joining pieces free of the separator and splitting again gives the pieces back. */
  lemma {:induction false} SplitJoin(pieces: seq<string>, sep: char)
    requires |pieces| >= 1
    requires forall i :: 0 <= i < |pieces| ==> sep !in pieces[i]
    ensures SplitOn(JoinWith(pieces, sep), sep) == pieces
  {
    var n := |pieces|;
    if n == 1 {
      SplitNoSep(pieces[0], sep);
    } else {
      var front := JoinWith(pieces[..n - 1], sep);
      SplitJoin(pieces[..n - 1], sep);
      SplitAfterSep(front, sep, pieces[n - 1]);
      assert pieces[..n - 1] + [pieces[n - 1]] == pieces;
    }
  }

  lemma {:induction false} SplitNoSep(p: string, sep: char)
    requires sep !in p
    ensures SplitOn(p, sep) == [p]
  {
    if p != [] {
      SplitNoSep(p[..|p| - 1], sep);
      assert p[..|p| - 1] + [p[|p| - 1]] == p;
    }
  }

  lemma {:induction false} SplitAfterSep(front: string, sep: char, p: string)
    requires sep !in p
    ensures SplitOn(front + [sep] + p, sep) == SplitOn(front, sep) + [p]
  {
    var s := front + [sep] + p;
    if p == [] {
      assert s[..|s| - 1] == front;
    } else {
      var p' := p[..|p| - 1];
      SplitAfterSep(front, sep, p');
      assert s[..|s| - 1] == front + [sep] + p';
      assert p' + [p[|p| - 1]] == p;
    }
  }

  /** `s.startsWith(prefix)`. */
  predicate StartsWith(s: string, prefix: string) {
    |prefix| <= |s| && s[..|prefix|] == prefix
  }

  /** `s.includes(sub)`. */
  predicate Contains(s: string, sub: string) {
    exists i :: 0 <= i <= |s| - |sub| && OccursAt(s, sub, i)
  }

  predicate OccursAt(s: string, sub: string, i: int)
    requires 0 <= i <= |s| - |sub|
  {
    s[i..i + |sub|] == sub
  }

  function LowerChar(c: char): char {
    if 'A' <= c <= 'Z' then (c as int + 32) as char else c
  }

  function UpperChar(c: char): char {
    if 'a' <= c <= 'z' then (c as int - 32) as char else c
  }

  /** `s.toLowerCase()`, for the ASCII letters. */
  function Lower(s: string): (r: string)
    ensures |r| == |s|
  {
    seq(|s|, i requires 0 <= i < |s| => LowerChar(s[i]))
  }

  /** `s.toUpperCase()`, for the ASCII letters. */
  function Upper(s: string): (r: string)
    ensures |r| == |s|
  {
    seq(|s|, i requires 0 <= i < |s| => UpperChar(s[i]))
  }

  /** `s.padEnd(n)`: `s` followed by spaces up to length `n`. */
  function PadEnd(s: string, n: nat): (r: string)
    ensures |r| == if |s| >= n then |s| else n
    ensures r[..|s|] == s
    ensures forall i :: |s| <= i < |r| ==> r[i] == ' '
  {
    if |s| >= n then s else s + seq(n - |s|, _ => ' ')
  }

  function DigitChar(d: nat): char
    requires d < 10
  {
    "0123456789"[d]
  }

  /** The decimal text JavaScript's template literals give a non-negative integer. */
  function NatToString(n: nat): (r: string)
    ensures |r| >= 1
    ensures forall i :: 0 <= i < |r| ==> '0' <= r[i] <= '9'
  {
    if n < 10 then [DigitChar(n)] else NatToString(n / 10) + [DigitChar(n % 10)]
  }
}
