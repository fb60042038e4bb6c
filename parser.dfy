/** `parseCommand`: the quote-aware tokenizer of the command line. It reads
    the line character by character, keeping the tokens found so far, the
    token being built, whether a quoted span is open and which quote
    opened it. */
module Parser {
  import opened Text

  /** The loop state: `parts`, `current`, `inQuote` and `quoteChar`
      (`""`, or the one quote character that opened the span). */
  datatype Scan = Scan(parts: seq<string>, current: string, inQuote: bool, quoteChar: string)

  const Start: Scan := Scan([], "", false, "")

  predicate IsQuote(c: char) {
    c == '"' || c == '\''
  }

  /** One iteration of the loop. */
  function Step(st: Scan, c: char): Scan {
    if IsQuote(c) && !st.inQuote then st.(inQuote := true, quoteChar := [c])
    else if [c] == st.quoteChar && st.inQuote then st.(inQuote := false, quoteChar := "")
    else if c == ' ' && !st.inQuote then
      (if st.current != "" then st.(parts := st.parts + [st.current], current := "") else st)
    else st.(current := st.current + [c])
  }

  /** The state after reading `s` from `st`. */
  function Run(st: Scan, s: string): Scan {
    if s == [] then st else Step(Run(st, s[..|s| - 1]), s[|s| - 1])
  }

  /** After the loop: a non-empty last token is kept. */
  function Finish(st: Scan): seq<string> {
    if st.current != "" then st.parts + [st.current] else st.parts
  }

  function Tokens(input: string): seq<string> {
    Finish(Run(Start, input))
  }

  method ParseCommand(input: string) returns (parts: seq<string>)
    ensures parts == Tokens(input)
    ensures forall i :: 0 <= i < |parts| ==> parts[i] != ""
  {
    parts := [];
    var current := "";
    var inQuote := false;
    var quoteChar := "";
    for i := 0 to |input|
      invariant Scan(parts, current, inQuote, quoteChar) == Run(Start, input[..i])
    {
      var c := input[i];
      if IsQuote(c) && !inQuote {
        inQuote := true;
        quoteChar := [c];
      } else if [c] == quoteChar && inQuote {
        inQuote := false;
        quoteChar := "";
      } else if c == ' ' && !inQuote {
        if current != "" {
          parts := parts + [current];
          current := "";
        }
      } else {
        current := current + [c];
      }
      assert input[..i + 1][..i] == input[..i];
    }
    assert input[..|input|] == input;
    if current != "" {
      parts := parts + [current];
    }
    TokensNonEmpty(input);
  }

  predicate AllNonEmpty(parts: seq<string>) {
    forall i :: 0 <= i < |parts| ==> parts[i] != ""
  }

  lemma {:induction false} RunNonEmpty(st: Scan, s: string)
    requires AllNonEmpty(st.parts)
    ensures AllNonEmpty(Run(st, s).parts)
  {
    if s != [] {
      RunNonEmpty(st, s[..|s| - 1]);
    }
  }

  /** The tokenizer never yields an empty token. */
  lemma TokensNonEmpty(input: string)
    ensures AllNonEmpty(Tokens(input))
  {
    RunNonEmpty(Start, input);
  }

  /** Reading `a` then `b` is reading `a + b`. */
  lemma {:induction false} RunAppend(st: Scan, a: string, b: string)
    ensures Run(st, a + b) == Run(Run(st, a), b)
  {
    if b != [] {
      RunAppend(st, a, b[..|b| - 1]);
      assert (a + b)[..|a + b| - 1] == a + b[..|b| - 1];
    } else {
      assert a + b == a;
    }
  }

  /** A span is open exactly when an opening quote is remembered. */
  predicate QuoteConsistent(st: Scan) {
    && (st.inQuote <==> st.quoteChar != "")
    && (st.inQuote ==> |st.quoteChar| == 1 && IsQuote(st.quoteChar[0]))
  }

  /** Every state the loop reaches is quote-consistent. */
  lemma {:induction false} RunConsistent(st: Scan, s: string)
    requires QuoteConsistent(st)
    ensures QuoteConsistent(Run(st, s))
  {
    if s != [] {
      RunConsistent(st, s[..|s| - 1]);
    }
  }

  // ---------------------------------------------------------------------
  // Without quotes: splitting on spaces and dropping the empty pieces

  /** `pieces.filter(p => p)`. */
  function DropEmpty(pieces: seq<string>): seq<string> {
    if pieces == [] then []
    else DropEmpty(pieces[..|pieces| - 1]) + (if pieces[|pieces| - 1] == "" then [] else [pieces[|pieces| - 1]])
  }

  predicate NoQuotes(s: string) {
    forall i :: 0 <= i < |s| ==> !IsQuote(s[i])
  }

  /** Without quotes the loop never opens a span, its current token is the
      last space-separated piece and its tokens are the earlier non-empty ones. */
  lemma {:induction false} NoQuoteScan(s: string)
    requires NoQuotes(s)
    ensures var st := Run(Start, s);
            var pieces := SplitOn(s, ' ');
            && !st.inQuote && st.quoteChar == ""
            && st.current == pieces[|pieces| - 1]
            && st.parts == DropEmpty(pieces[..|pieces| - 1])
  {
    if s != [] {
      var s' := s[..|s| - 1];
      assert NoQuotes(s') by {
        forall i | 0 <= i < |s'| ensures !IsQuote(s'[i]) { assert s'[i] == s[i]; }
      }
      NoQuoteScan(s');
      var pieces' := SplitOn(s', ' ');
      var c := s[|s| - 1];
      assert !IsQuote(c);
      if c == ' ' {
        assert (pieces' + [""])[..|pieces'|] == pieces';
        assert pieces'[..|pieces'| - 1] + [pieces'[|pieces'| - 1]] == pieces';
      } else {
        var pieces := pieces'[..|pieces'| - 1] + [pieces'[|pieces'| - 1] + [c]];
        assert pieces[..|pieces| - 1] == pieces'[..|pieces'| - 1];
      }
    }
  }

  /** Without quotes the tokens are the line split on spaces, empty pieces
      dropped: unquoted spaces separate tokens and runs of spaces collapse. */
  lemma NoQuotesIsSplit(s: string)
    requires NoQuotes(s)
    ensures Tokens(s) == DropEmpty(SplitOn(s, ' '))
  {
    NoQuoteScan(s);
    var pieces := SplitOn(s, ' ');
    assert pieces[..|pieces| - 1] + [pieces[|pieces| - 1]] == pieces;
  }

  // ---------------------------------------------------------------------
  // Quoted spans

  /** Inside a span every character but its closing quote is kept, spaces
      and the other quote kind included. */
  lemma {:induction false} InsideSpan(st: Scan, q: char, body: string)
    requires st.inQuote && st.quoteChar == [q] && q !in body
    ensures Run(st, body) == st.(current := st.current + body)
  {
    if body != [] {
      var b' := body[..|body| - 1];
      InsideSpan(st, q, b');
      assert b' + [body[|body| - 1]] == body;
    }
  }

  /** A quoted span `q body q` outside a span adds `body` to the current
      token, without the quotes, and leaves the span closed again. */
  lemma QuotedSpan(st: Scan, q: char, body: string)
    requires QuoteConsistent(st) && !st.inQuote && IsQuote(q) && q !in body
    ensures Run(st, [q] + body + [q]) == st.(current := st.current + body)
  {
    var spanOpen := st.(inQuote := true, quoteChar := [q]);
    assert Run(st, [q]) == spanOpen by {
      assert [q][..0] == [];
    }
    RunAppend(st, [q], body);
    InsideSpan(spanOpen, q, body);
    RunAppend(st, [q] + body, [q]);
    assert Run(Run(st, [q] + body), [q]) == Step(Run(st, [q] + body), q) by {
      assert [q][..0] == [];
    }
  }

  /** A quote that is never closed takes the rest of the line into the last token. */
  lemma Unterminated(st: Scan, q: char, rest: string)
    requires !st.inQuote && IsQuote(q) && q !in rest
    ensures Finish(Run(st, [q] + rest)) ==
      st.parts + (if st.current + rest != "" then [st.current + rest] else [])
  {
    var spanOpen := st.(inQuote := true, quoteChar := [q]);
    assert Run(st, [q]) == spanOpen by {
      assert [q][..0] == [];
    }
    RunAppend(st, [q], rest);
    InsideSpan(spanOpen, q, rest);
  }
}
