/** The terminal: its output lines, its input box and the command history
    with the cursor the arrow keys move. */
module Cli {
  import opened Text
  import opened Store
  import opened Output
  import opened Commands

  /** The terminal's state as a value. */
  datatype TerminalState = TerminalState(history: seq<string>, historyIndex: int, input: string, lines: seq<Line>)

  /** The history cursor is `-1` (nothing recalled yet), a position of the
      history, or one past its end. */
  predicate IndexOk(t: TerminalState) {
    -1 <= t.historyIndex <= |t.history|
  }

  /** Enter, given the calls the command line makes when run: a non-blank
      trimmed line is recorded, echoed, run and followed by a blank line;
      the input box is cleared either way. */
  function EnterView(t: TerminalState, calls: seq<Call>): TerminalState {
    var command := Trim(t.input);
    if command == "" then t.(input := "")
    else TerminalState(t.history + [command], |t.history| + 1, "",
                       Apply(t.lines, [PrintCommand(command)] + calls + [PrintNewline]))
  }

  /** ArrowUp: step back while past the first entry, recalling it. */
  function UpStep(t: TerminalState): TerminalState
    requires IndexOk(t)
  {
    if t.historyIndex > 0 then t.(historyIndex := t.historyIndex - 1, input := t.history[t.historyIndex - 1])
    else t
  }

  /** ArrowDown: step forward while before the last entry, recalling it;
      otherwise go one past the end and clear the input. */
  function DownStep(t: TerminalState): TerminalState
    requires IndexOk(t)
  {
    if t.historyIndex < |t.history| - 1 then
      t.(historyIndex := t.historyIndex + 1, input := t.history[t.historyIndex + 1])
    else t.(historyIndex := |t.history|, input := "")
  }

  datatype Key = Enter | ArrowUp | ArrowDown | OtherKey

  class Terminal {
    var history: seq<string>
    var historyIndex: int
    var input: string
    var lines: seq<Line>

    function View(): TerminalState
      reads this
    {
      TerminalState(history, historyIndex, input, lines)
    }

    predicate Valid()
      reads this
    {
      IndexOk(View())
    }

    constructor ()
      ensures View() == TerminalState([], -1, "", [])
      ensures Valid()
    {
      history := [];
      historyIndex := -1;
      input := "";
      lines := [];
    }

    /** `printOutput(text)`: one output line per `'\n'`-separated piece. */
    method PrintOutputText(text: string)
      modifies this
      ensures lines == old(lines) + LinesOf(PrintOutput(text))
      ensures history == old(history) && historyIndex == old(historyIndex) && input == old(input)
    {
      var pieces := SplitOn(text, '\n');
      ghost var before := lines;
      for i := 0 to |pieces|
        invariant lines == before + seq(i, k requires 0 <= k < i => Line(OutputLine, pieces[k]))
        invariant history == old(history) && historyIndex == old(historyIndex) && input == old(input)
      {
        lines := lines + [Line(OutputLine, pieces[i])];
      }
    }

    /** Carries out the calls a command made on the terminal, in order. */
    method Perform(calls: seq<Call>)
      modifies this
      ensures lines == Apply(old(lines), calls)
      ensures history == old(history) && historyIndex == old(historyIndex) && input == old(input)
    {
      for i := 0 to |calls|
        invariant lines == Apply(old(lines), calls[..i])
        invariant history == old(history) && historyIndex == old(historyIndex) && input == old(input)
      {
        var c := calls[i];
        match c {
          case PrintCommand(t) => lines := lines + [Line(CommandLine, t)];
          case PrintOutput(t) => PrintOutputText(t);
          case PrintError(t) => lines := lines + [Line(ErrorLine, t)];
          case PrintSuccess(t) => lines := lines + [Line(SuccessLine, t)];
          case PrintNewline => lines := lines + [Line(BlankLine, "")];
          case ClearOutput => lines := [];
        }
        assert calls[..i + 1][..i] == calls[..i];
      }
      assert calls[..|calls|] == calls;
    }

    /** Enter; `calls` are what the command line did on the terminal. */
    method HandleEnter(st: GitStore, host: Host) returns (calls: seq<Call>)
      requires Valid() && st.Valid() && ValidHost(host)
      modifies this, st
      ensures Valid() && st.Valid()
      ensures View() == EnterView(old(View()), calls)
      ensures Trim(old(input)) == "" ==> calls == [] && st.Snapshot() == old(st.Snapshot())
      ensures Trim(old(input)) != "" ==>
        Outcome(st.Snapshot(), calls) == Execute(old(st.Snapshot()), Trim(old(input)), host)
    {
      calls := [];
      var command := Trim(input);
      if command != "" {
        ghost var l0 := lines;
        Record(command);
        calls := ExecuteCommand(st, command, host);
        Finish(calls);
        EchoLines(l0, command, calls);
      } else {
        input := "";
      }
    }

    /** The start of a non-blank Enter: record the line, move the cursor
        past the end and echo the line. */
    method Record(command: string)
      modifies this
      ensures history == old(history) + [command] && historyIndex == |history| && input == old(input)
      ensures lines == Apply(old(lines), [PrintCommand(command)])
    {
      history := history + [command];
      historyIndex := |history|;
      Perform([PrintCommand(command)]);
    }

    /** The end of a non-blank Enter: show what the command printed, then a
        blank line, and clear the input box. */
    method Finish(calls: seq<Call>)
      modifies this
      ensures history == old(history) && historyIndex == old(historyIndex) && input == ""
      ensures lines == Apply(Apply(old(lines), calls), [PrintNewline])
    {
      Perform(calls);
      Perform([PrintNewline]);
      input := "";
    }

    method HandleArrowUp()
      requires Valid()
      modifies this
      ensures Valid()
      ensures View() == UpStep(old(View()))
    {
      if historyIndex > 0 {
        historyIndex := historyIndex - 1;
        input := history[historyIndex];
      }
    }

    method HandleArrowDown()
      requires Valid()
      modifies this
      ensures Valid()
      ensures View() == DownStep(old(View()))
    {
      if historyIndex < |history| - 1 {
        historyIndex := historyIndex + 1;
        input := history[historyIndex];
      } else {
        historyIndex := |history|;
        input := "";
      }
    }

    /** `handleInput(e)`: Enter runs the line, the arrows walk the history,
        any other key changes nothing here. */
    method HandleInput(key: Key, st: GitStore, host: Host) returns (calls: seq<Call>)
      requires Valid() && st.Valid() && ValidHost(host)
      modifies this, st
      ensures Valid() && st.Valid()
      ensures key.Enter? ==> View() == EnterView(old(View()), calls)
      ensures key.Enter? && Trim(old(input)) != "" ==>
        Outcome(st.Snapshot(), calls) == Execute(old(st.Snapshot()), Trim(old(input)), host)
      ensures !key.Enter? ==> calls == []
      ensures !(key.Enter? && Trim(old(input)) != "") ==> st.Snapshot() == old(st.Snapshot())
      ensures key.ArrowUp? ==> View() == UpStep(old(View()))
      ensures key.ArrowDown? ==> View() == DownStep(old(View()))
      ensures key.OtherKey? ==> View() == old(View())
    {
      calls := [];
      match key {
        case Enter => calls := HandleEnter(st, host);
        case ArrowUp => HandleArrowUp();
        case ArrowDown => HandleArrowDown();
        case OtherKey =>
      }
    }
  }

  lemma EchoLines(lines: seq<Line>, command: string, calls: seq<Call>)
    ensures Apply(Apply(Apply(lines, [PrintCommand(command)]), calls), [PrintNewline])
         == Apply(lines, [PrintCommand(command)] + calls + [PrintNewline])
  {
    ApplyConcat(lines, [PrintCommand(command)], calls);
    ApplyConcat(lines, [PrintCommand(command)] + calls, [PrintNewline]);
  }

  // ---------------------------------------------------------------------
  // Properties of the history cursor

  /** Enter keeps the cursor within `-1..|history|`. */
  lemma EnterKeepsIndex(t: TerminalState, calls: seq<Call>)
    requires IndexOk(t)
    ensures IndexOk(EnterView(t, calls))
  {
  }

  /** Both arrow keys keep the cursor within `-1..|history|`. */
  lemma ArrowsKeepIndex(t: TerminalState)
    requires IndexOk(t)
    ensures IndexOk(UpStep(t)) && IndexOk(DownStep(t))
  {
  }

  /** Whenever an arrow key fills the input from the history, the cursor is
      a valid position and the input is that entry; when ArrowDown runs off
      the end the cursor sits one past it and the input is empty. */
  lemma RecallIsValid(t: TerminalState)
    requires IndexOk(t)
    ensures var u := UpStep(t);
      u.historyIndex != t.historyIndex ==>
        0 <= u.historyIndex < |u.history| && u.input == u.history[u.historyIndex]
    ensures var d := DownStep(t);
      && (d.historyIndex < |d.history| ==> 0 <= d.historyIndex && d.input == d.history[d.historyIndex])
      && (d.historyIndex == |d.history| ==> d.input == "")
    ensures UpStep(t).history == t.history && DownStep(t).history == t.history
  {
  }

  /** Enter records the trimmed line exactly when it is not blank, moves the
      cursor one past the end, and always empties the input box. */
  lemma EnterRecords(t: TerminalState, calls: seq<Call>)
    ensures var u := EnterView(t, calls);
      && u.input == ""
      && (IsBlank(t.input) ==> u.history == t.history && u.historyIndex == t.historyIndex && u.lines == t.lines)
      && (!IsBlank(t.input) ==> u.history == t.history + [Trim(t.input)] && u.historyIndex == |u.history|)
  {
    TrimEmptyIffBlank(t.input);
  }

  /** After running a line, ArrowUp recalls it; pressing ArrowDown then
      clears the box again. */
  lemma UpRecallsLast(t: TerminalState, calls: seq<Call>)
    requires IndexOk(t) && !IsBlank(t.input)
    ensures var u := EnterView(t, calls);
      && UpStep(u).input == Trim(t.input)
      && DownStep(UpStep(u)).input == ""
      && DownStep(UpStep(u)).historyIndex == |u.history|
  {
    TrimEmptyIffBlank(t.input);
  }

  /** A command that does not clear the screen leaves the earlier lines in
      place, echoes itself on the next line and ends with a blank line. */
  lemma EnterTranscript(t: TerminalState, calls: seq<Call>)
    requires !IsBlank(t.input)
    requires forall i :: 0 <= i < |calls| ==> !calls[i].ClearOutput?
    ensures var u := EnterView(t, calls);
      && |u.lines| >= |t.lines| + 2
      && u.lines[..|t.lines|] == t.lines
      && u.lines[|t.lines|] == Line(CommandLine, Trim(t.input))
      && u.lines[|u.lines| - 1] == Line(BlankLine, "")
  {
    TrimEmptyIffBlank(t.input);
    EchoShape(t.lines, Trim(t.input), calls);
  }

  /** The lines of an echoed command whose calls do not clear the screen. */
  lemma EchoShape(lines: seq<Line>, command: string, calls: seq<Call>)
    requires forall i :: 0 <= i < |calls| ==> !calls[i].ClearOutput?
    ensures var all := Apply(lines, [PrintCommand(command)] + calls + [PrintNewline]);
      && |all| >= |lines| + 2
      && all[..|lines|] == lines
      && all[|lines|] == Line(CommandLine, command)
      && all[|all| - 1] == Line(BlankLine, "")
  {
    var l1 := lines + [Line(CommandLine, command)];
    ApplyOne(lines, PrintCommand(command));
    ApplyAppends(l1, calls);
    var l2 := Apply(l1, calls);
    ApplyOne(l2, PrintNewline);
    EchoLines(lines, command, calls);
    var all := l2 + [Line(BlankLine, "")];
    assert all[..|l1|] == l1;
    assert all[..|l1|][|lines|] == all[|lines|];
    assert all[|lines|] == Line(CommandLine, command);
    assert all[..|lines|] == l1[..|lines|];
  }

  lemma ApplyOne(lines: seq<Line>, c: Call)
    ensures Apply(lines, [c]) == if c.ClearOutput? then [] else lines + LinesOf(c)
  {
    assert [c][..0] == [];
  }
}
