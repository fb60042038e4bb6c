/** The terminal's output side: the calls a command handler makes on it
    (`printCommand`, `printOutput`, `printError`, `printSuccess`,
    `printNewline`, `clearOutput`) and the lines each call appends. */
module Output {
  import opened Text

  datatype Call =
    | PrintCommand(text: string)
    | PrintOutput(text: string)
    | PrintError(text: string)
    | PrintSuccess(text: string)
    | PrintNewline
    | ClearOutput

  datatype LineKind = CommandLine | OutputLine | ErrorLine | SuccessLine | BlankLine

  /** One line of the terminal; a blank line's text is empty (its `&nbsp;` is markup). */
  datatype Line = Line(kind: LineKind, text: string)

  /** The lines one call appends: `printOutput` one line per `'\n'`-separated
      piece, every other print call exactly one line, `clearOutput` none. */
  function LinesOf(c: Call): (r: seq<Line>)
    ensures c.PrintOutput? ==> |r| == |SplitOn(c.text, '\n')|
    ensures c.PrintOutput? ==> forall i :: 0 <= i < |r| ==> r[i].kind == OutputLine
    ensures !c.PrintOutput? && !c.ClearOutput? ==> |r| == 1
    ensures c.ClearOutput? ==> r == []
  {
    match c
    case PrintCommand(t) => [Line(CommandLine, t)]
    case PrintOutput(t) =>
      var pieces := SplitOn(t, '\n');
      seq(|pieces|, i requires 0 <= i < |pieces| => Line(OutputLine, pieces[i]))
    case PrintError(t) => [Line(ErrorLine, t)]
    case PrintSuccess(t) => [Line(SuccessLine, t)]
    case PrintNewline => [Line(BlankLine, "")]
    case ClearOutput => []
  }

  function Texts(lines: seq<Line>): (r: seq<string>)
    ensures |r| == |lines| && forall i :: 0 <= i < |lines| ==> r[i] == lines[i].text
  {
    seq(|lines|, i requires 0 <= i < |lines| => lines[i].text)
  }

  /** The output lines of `printOutput(text)`, joined by newlines, are `text`:
      nothing is lost or reordered. */
  lemma OutputLinesRoundTrip(text: string)
    ensures |LinesOf(PrintOutput(text))| >= 1
    ensures JoinWith(Texts(LinesOf(PrintOutput(text))), '\n') == text
  {
    assert Texts(LinesOf(PrintOutput(text))) == SplitOn(text, '\n');
    JoinSplit(text, '\n');
  }

  /** Text without a newline is printed as exactly one output line. */
  lemma OutputSingleLine(text: string)
    requires '\n' !in text
    ensures LinesOf(PrintOutput(text)) == [Line(OutputLine, text)]
  {
    SplitNoSep(text, '\n');
  }

  /** The terminal after a sequence of calls: `clearOutput` empties it,
      every other call appends its lines. */
  function Apply(lines: seq<Line>, calls: seq<Call>): seq<Line> {
    if calls == [] then lines
    else
      var before := Apply(lines, calls[..|calls| - 1]);
      var c := calls[|calls| - 1];
      if c.ClearOutput? then [] else before + LinesOf(c)
  }

  /** Calls free of `clearOutput` only ever append, one after the other. */
  lemma {:induction false} ApplyAppends(lines: seq<Line>, calls: seq<Call>)
    requires forall i :: 0 <= i < |calls| ==> !calls[i].ClearOutput?
    ensures |Apply(lines, calls)| >= |lines| && Apply(lines, calls)[..|lines|] == lines
  {
    if calls != [] {
      ApplyAppends(lines, calls[..|calls| - 1]);
    }
  }

  /** Applying two runs of calls one after the other is applying their
      concatenation. */
  lemma {:induction false} ApplyConcat(lines: seq<Line>, a: seq<Call>, b: seq<Call>)
    ensures Apply(lines, a + b) == Apply(Apply(lines, a), b)
  {
    if b == [] {
      assert a + b == a;
    } else {
      ApplyConcat(lines, a, b[..|b| - 1]);
      assert (a + b)[..|a + b| - 1] == a + b[..|b| - 1];
    }
  }
}
