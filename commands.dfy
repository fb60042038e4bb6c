/** The command interpreter: the table `help` prints, the dispatcher
    `executeCommand` and the seven git handlers. Each handler is a method
    on the store, proved against a step function on `State` that gives the
    new state and the terminal calls; the lemmas below are about those
    step functions. */
module Commands {
  import opened Text
  import opened Store
  import opened Output
  import opened Parser

  /** What the host supplies: the seven random draws of the next commit
      hash, the current time as an ISO string, and the locale rendering
      `new Date(t).toLocaleString()` of a stored timestamp. */
  datatype Host = Host(rolls: seq<nat>, now: string, localeDate: string -> string)

  predicate ValidHost(host: Host) {
    ValidRolls(host.rolls)
  }

  /** A handler's effect: the state after it and the calls it made. */
  datatype Outcome = Outcome(state: State, calls: seq<Call>)

  const NotARepository: Call := PrintError("fatal: not a git repository")
  const HelpHint: string := "Type \"help\" to see available commands."
  const CleanLine: string := "nothing to commit, working tree clean"

  function PathspecError(target: string): Call {
    PrintError("fatal: pathspec '" + target + "' did not match any files")
  }

  // ---------------------------------------------------------------------
  // help and clear

  datatype CommandInfo = CommandInfo(name: string, description: string, usage: string)

  /** `COMMANDS`, in its insertion order. */
  const CommandTable: seq<CommandInfo> := [
    CommandInfo("help", "Show available commands", "help"),
    CommandInfo("clear", "Clear the terminal", "clear"),
    CommandInfo("git clone", "Clone a repository", "git clone <url>"),
    CommandInfo("git status", "Show working tree status", "git status"),
    CommandInfo("git add", "Add file(s) to staging", "git add <file> or git add ."),
    CommandInfo("git commit", "Record changes to repository", "git commit -m \"message\""),
    CommandInfo("git push", "Push commits to remote", "git push"),
    CommandInfo("git log", "Show commit history", "git log"),
    CommandInfo("git reset", "Unstage a file", "git reset HEAD <file>")
  ]

  function HelpRow(info: CommandInfo): string {
    "  " + PadEnd(info.usage, 30) + " " + info.description
  }

  /** What `cmdHelp` prints: a heading, one row per table entry, a closing hint. */
  function HelpCalls(): seq<Call> {
    [PrintOutput("Available commands:"), PrintOutput("")]
    + seq(|CommandTable|, i requires 0 <= i < |CommandTable| => PrintOutput(HelpRow(CommandTable[i])))
    + [PrintOutput(""), PrintOutput("Try: git clone https://github.com/user/my-project.git")]
  }

  method CmdHelp() returns (calls: seq<Call>)
    ensures calls == HelpCalls()
  {
    calls := [PrintOutput("Available commands:"), PrintOutput("")];
    for i := 0 to |CommandTable|
      invariant |calls| == i + 2
      invariant calls[..2] == [PrintOutput("Available commands:"), PrintOutput("")]
      invariant forall j :: 0 <= j < i ==> calls[j + 2] == PrintOutput(HelpRow(CommandTable[j]))
    {
      calls := calls + [PrintOutput(HelpRow(CommandTable[i]))];
    }
    calls := calls + [PrintOutput(""), PrintOutput("Try: git clone https://github.com/user/my-project.git")];
  }

  /** A usage of at most 30 characters is followed by padding, so the
      description starts at column 33 of its row. */
  lemma RowLayout(info: CommandInfo)
    requires |info.usage| <= 30
    ensures |HelpRow(info)| == 33 + |info.description|
    ensures HelpRow(info)[2..2 + |info.usage|] == info.usage
    ensures HelpRow(info)[33..] == info.description
  {
    var padded := PadEnd(info.usage, 30);
    var row := "  " + padded + " " + info.description;
    assert row[2..32] == padded;
    assert row[2..2 + |info.usage|] == padded[..|info.usage|];
    assert row[33..] == info.description;
  }

  /** Every usage in the table fits the 30-column pad. */
  lemma HelpColumns()
    ensures forall i :: 0 <= i < |CommandTable| ==>
      |HelpRow(CommandTable[i])| == 33 + |CommandTable[i].description| &&
      HelpRow(CommandTable[i])[2..2 + |CommandTable[i].usage|] == CommandTable[i].usage &&
      HelpRow(CommandTable[i])[33..] == CommandTable[i].description
  {
    forall i | 0 <= i < |CommandTable|
      ensures |HelpRow(CommandTable[i])| == 33 + |CommandTable[i].description|
      ensures HelpRow(CommandTable[i])[2..2 + |CommandTable[i].usage|] == CommandTable[i].usage
      ensures HelpRow(CommandTable[i])[33..] == CommandTable[i].description
    {
      assert |CommandTable[i].usage| <= 30;
      RowLayout(CommandTable[i]);
    }
  }

  // ---------------------------------------------------------------------
  // git clone

  /** The loose url check: the url mentions `github.com` or contains the remote url. */
  predicate CloneUrlAccepted(url: string, remoteUrl: string) {
    Contains(url, "github.com") || Contains(url, remoteUrl)
  }

  function CloneStep(s: State, args: seq<string>): Outcome {
    if s.repo.isCloned then Outcome(s, [PrintError("fatal: destination path already exists")])
    else if args == [] then Outcome(s, [PrintError("usage: git clone <repository>")])
    else if !CloneUrlAccepted(args[0], s.repo.remoteUrl) then
      Outcome(s, [PrintError("fatal: repository '" + args[0] + "' not found")])
    else
      Outcome(s.(repo := s.repo.(isCloned := true), files := SetFile(s.files, "README.md", Committed)),
        [PrintOutput("Cloning into '" + s.repo.name + "'..."),
         PrintOutput("remote: Enumerating objects: 3, done."),
         PrintOutput("remote: Counting objects: 100% (3/3), done."),
         PrintOutput("remote: Total 3 (delta 0), reused 0 (delta 0)"),
         PrintSuccess("Successfully cloned " + s.repo.name)])
  }

  method CmdGitClone(st: GitStore, args: seq<string>) returns (calls: seq<Call>)
    requires st.Valid()
    modifies st
    ensures st.Valid()
    ensures Outcome(st.Snapshot(), calls) == CloneStep(old(st.Snapshot()), args)
  {
    if st.repo.isCloned {
      return [PrintError("fatal: destination path already exists")];
    }
    if |args| == 0 {
      return [PrintError("usage: git clone <repository>")];
    }
    var url := args[0];
    var repo := st.repo;
    if !Contains(url, "github.com") && !Contains(url, repo.remoteUrl) {
      return [PrintError("fatal: repository '" + url + "' not found")];
    }
    calls := [PrintOutput("Cloning into '" + repo.name + "'..."),
              PrintOutput("remote: Enumerating objects: 3, done."),
              PrintOutput("remote: Counting objects: 100% (3/3), done."),
              PrintOutput("remote: Total 3 (delta 0), reused 0 (delta 0)")];
    st.SetCloned(true);
    st.AddFile("README.md", Committed);
    calls := calls + [PrintSuccess("Successfully cloned " + repo.name)];
  }

  /** A successful clone marks the repository cloned and holds `README.md`
      as committed; any other file entry is as before. */
  lemma CloneSucceeds(s: State, url: string, rest: seq<string>)
    requires !s.repo.isCloned && CloneUrlAccepted(url, s.repo.remoteUrl)
    ensures var t := CloneStep(s, [url] + rest).state;
      && t.repo.isCloned
      && Lookup(t.files, "README.md") == Some(Committed)
      && (forall n :: n != "README.md" ==> Lookup(t.files, n) == Lookup(s.files, n))
      && t.commits == s.commits && t.pushedCommitCount == s.pushedCommitCount
  {
  }

  /** Clone changes nothing when it refuses. */
  lemma CloneRefusals(s: State, args: seq<string>)
    requires s.repo.isCloned || args == [] || !CloneUrlAccepted(args[0], s.repo.remoteUrl)
    ensures CloneStep(s, args).state == s
    ensures |CloneStep(s, args).calls| == 1 && CloneStep(s, args).calls[0].PrintError?
  {
  }

  // ---------------------------------------------------------------------
  // git status

  /** One output line per name, in order, each behind `prefix`. */
  function Listing(prefix: string, names: seq<string>): (r: seq<Call>)
    ensures |r| == |names|
  {
    seq(|names|, i requires 0 <= i < |names| => PrintOutput(prefix + names[i]))
  }

  /** A titled block of the status report; nothing for an empty bucket. */
  function Section(title: string, hint: string, prefix: string, names: seq<string>): seq<Call> {
    if names == [] then []
    else [PrintOutput(title), PrintOutput(hint), PrintOutput("")] + Listing(prefix, names) + [PrintOutput("")]
  }

  const StagedPrefix: string := "        new file:   "
  const ModifiedPrefix: string := "        modified:   "
  const UntrackedPrefix: string := "        "

  function AheadLine(branch: string, count: nat): string {
    "Your branch is ahead of 'origin/" + branch + "' by " + NatToString(count) + " commit(s)."
  }

  function StatusHead(s: State): seq<Call> {
    var unpushed := UnpushedCommits(s.commits, s.pushedCommitCount);
    [PrintOutput("On branch " + s.repo.currentBranch)]
    + (if unpushed != [] then
         [PrintOutput(AheadLine(s.repo.currentBranch, |unpushed|)),
          PrintOutput("  (use \"git push\" to publish your local commits)"),
          PrintOutput("")]
       else [])
  }

  function StagedSection(s: State): seq<Call> {
    Section("Changes to be committed:", "  (use \"git reset HEAD <file>...\" to unstage)",
            StagedPrefix, StagedFiles(s.files))
  }

  function ModifiedSection(s: State): seq<Call> {
    Section("Changes not staged for commit:", "  (use \"git add <file>...\" to update what will be committed)",
            ModifiedPrefix, ModifiedFiles(s.files))
  }

  function UntrackedSection(s: State): seq<Call> {
    Section("Untracked files:", "  (use \"git add <file>...\" to include in what will be committed)",
            UntrackedPrefix, UntrackedFiles(s.files))
  }

  function StatusTail(s: State): seq<Call> {
    if StagedFiles(s.files) == [] && ModifiedFiles(s.files) == [] && UntrackedFiles(s.files) == []
    then [PrintOutput(CleanLine)] else []
  }

  /** What `cmdGitStatus` prints. */
  function StatusReport(s: State): seq<Call> {
    if !s.repo.isCloned then [NotARepository]
    else StatusHead(s) + StagedSection(s) + ModifiedSection(s) + UntrackedSection(s) + StatusTail(s)
  }

  /** `calls` followed by one section, built line by line as the handler's `forEach` does. */
  lemma ListingSnoc(prefix: string, names: seq<string>, i: nat)
    requires i < |names|
    ensures Listing(prefix, names[..i + 1]) == Listing(prefix, names[..i]) + [PrintOutput(prefix + names[i])]
  {
  }

  method EmitSection(calls: seq<Call>, title: string, hint: string, prefix: string, names: seq<string>)
    returns (out: seq<Call>)
    ensures out == calls + Section(title, hint, prefix, names)
  {
    if |names| == 0 {
      return calls;
    }
    out := calls + [PrintOutput(title), PrintOutput(hint), PrintOutput("")];
    ghost var start := out;
    for i := 0 to |names|
      invariant out == start + Listing(prefix, names[..i])
    {
      out := out + [PrintOutput(prefix + names[i])];
      ListingSnoc(prefix, names, i);
    }
    assert names[..|names|] == names;
    out := out + [PrintOutput("")];
  }

  method CmdGitStatus(st: GitStore) returns (calls: seq<Call>)
    ensures calls == StatusReport(st.Snapshot())
  {
    if !st.repo.isCloned {
      return [NotARepository];
    }
    ghost var s := st.Snapshot();
    var repo := st.repo;
    calls := [PrintOutput("On branch " + repo.currentBranch)];
    var staged := StagedFiles(st.files);
    var modified := ModifiedFiles(st.files);
    var untracked := UntrackedFiles(st.files);
    if HasUnpushedCommits(st.commits, st.pushedCommitCount) {
      var unpushed := UnpushedCommits(st.commits, st.pushedCommitCount);
      calls := calls + [PrintOutput(AheadLine(repo.currentBranch, |unpushed|)),
                        PrintOutput("  (use \"git push\" to publish your local commits)"),
                        PrintOutput("")];
    }
    assert calls == StatusHead(s);
    calls := EmitSection(calls, "Changes to be committed:", "  (use \"git reset HEAD <file>...\" to unstage)",
                         StagedPrefix, staged);
    assert calls == StatusHead(s) + StagedSection(s);
    calls := EmitSection(calls, "Changes not staged for commit:",
                         "  (use \"git add <file>...\" to update what will be committed)",
                         ModifiedPrefix, modified);
    assert calls == StatusHead(s) + StagedSection(s) + ModifiedSection(s);
    calls := EmitSection(calls, "Untracked files:",
                         "  (use \"git add <file>...\" to include in what will be committed)",
                         UntrackedPrefix, untracked);
    assert calls == StatusHead(s) + StagedSection(s) + ModifiedSection(s) + UntrackedSection(s);
    if |staged| == 0 && |modified| == 0 && |untracked| == 0 {
      calls := calls + [PrintOutput(CleanLine)];
    }
  }

  lemma SectionEnd(title: string, hint: string, prefix: string, names: seq<string>)
    requires names != []
    ensures var r := Section(title, hint, prefix, names); r != [] && r[|r| - 1] == PrintOutput("")
  {
  }

  /** The report of a cloned repository ends with the clean line exactly
      when no file is staged, modified or untracked. */
  lemma StatusCleanIff(s: State)
    requires s.repo.isCloned
    ensures var r := StatusReport(s);
      r != [] && (r[|r| - 1] == PrintOutput(CleanLine) <==> !HasChanges(s.files))
  {
    HasChangesIff(s.files);
    var head := StatusHead(s);
    var a := StagedSection(s);
    var b := ModifiedSection(s);
    var c := UntrackedSection(s);
    var r := head + a + b + c + StatusTail(s);
    assert r == StatusReport(s);
    if HasChanges(s.files) {
      assert StatusTail(s) == [];
      assert PrintOutput("") != PrintOutput(CleanLine);
      if c != [] {
        SectionEnd("Untracked files:", "  (use \"git add <file>...\" to include in what will be committed)",
                   UntrackedPrefix, UntrackedFiles(s.files));
        assert r[|r| - 1] == c[|c| - 1];
      } else if b != [] {
        SectionEnd("Changes not staged for commit:",
                   "  (use \"git add <file>...\" to update what will be committed)",
                   ModifiedPrefix, ModifiedFiles(s.files));
        assert r == head + a + b;
        assert r[|r| - 1] == b[|b| - 1];
      } else {
        assert a != [];
        SectionEnd("Changes to be committed:", "  (use \"git reset HEAD <file>...\" to unstage)",
                   StagedPrefix, StagedFiles(s.files));
        assert r == head + a;
        assert r[|r| - 1] == a[|a| - 1];
      }
    }
  }

  /** With unpushed commits the second line counts them. */
  lemma StatusAhead(s: State)
    requires s.repo.isCloned && s.pushedCommitCount < |s.commits|
    ensures |StatusReport(s)| >= 2
    ensures StatusReport(s)[1] == PrintOutput(AheadLine(s.repo.currentBranch, |s.commits| - s.pushedCommitCount))
  {
    HeadAhead(s);
    var x1 := StatusHead(s) + StagedSection(s);
    var x2 := x1 + ModifiedSection(s);
    var x3 := x2 + UntrackedSection(s);
    assert StatusReport(s) == x3 + StatusTail(s);
    assert (x3 + StatusTail(s))[1] == x3[1] == x2[1] == x1[1] == StatusHead(s)[1];
  }

  lemma HeadAhead(s: State)
    requires s.pushedCommitCount < |s.commits|
    ensures |StatusHead(s)| == 4
    ensures StatusHead(s)[1] == PrintOutput(AheadLine(s.repo.currentBranch, |s.commits| - s.pushedCommitCount))
  {
    assert |UnpushedCommits(s.commits, s.pushedCommitCount)| == |s.commits| - s.pushedCommitCount;
  }

  lemma SectionLists(title: string, hint: string, prefix: string, names: seq<string>, n: string)
    requires n in names
    ensures PrintOutput(prefix + n) in Section(title, hint, prefix, names)
  {
    var i :| 0 <= i < |names| && names[i] == n;
    assert Listing(prefix, names)[i] == PrintOutput(prefix + n);
  }

  function ChangePrefix(status: FileStatus): string
    requires status != Committed
  {
    match status
    case Staged => StagedPrefix
    case Modified => ModifiedPrefix
    case Untracked => UntrackedPrefix
  }

  /** Every staged, modified or untracked file is listed under its heading. */
  lemma StatusListsEveryChange(s: State, n: string, status: FileStatus)
    requires WellFormed(s) && s.repo.isCloned
    requires Lookup(s.files, n) == Some(status) && status != Committed
    ensures PrintOutput(ChangePrefix(status) + n) in StatusReport(s)
  {
    BucketIffStatus(s.files, status, n);
    var r := StatusReport(s);
    assert r == StatusHead(s) + StagedSection(s) + ModifiedSection(s) + UntrackedSection(s) + StatusTail(s);
    match status
    case Staged =>
      SectionLists("Changes to be committed:", "  (use \"git reset HEAD <file>...\" to unstage)",
                   StagedPrefix, StagedFiles(s.files), n);
    case Modified =>
      SectionLists("Changes not staged for commit:",
                   "  (use \"git add <file>...\" to update what will be committed)",
                   ModifiedPrefix, ModifiedFiles(s.files), n);
    case Untracked =>
      SectionLists("Untracked files:", "  (use \"git add <file>...\" to include in what will be committed)",
                   UntrackedPrefix, UntrackedFiles(s.files), n);
  }

  // ---------------------------------------------------------------------
  // git add

  function AddStep(s: State, args: seq<string>): Outcome {
    if !s.repo.isCloned then Outcome(s, [NotARepository])
    else if args == [] then
      Outcome(s, [PrintError("Nothing specified, nothing added."),
                  PrintOutput("hint: Maybe you wanted to say \"git add .\"?")])
    else if args[0] == "." then
      var toStage := ModifiedFiles(s.files) + UntrackedFiles(s.files);
      if toStage == [] then Outcome(s, [PrintOutput("Nothing to add.")])
      else Outcome(s.(files := Restatus(s.files, toStage, Staged)),
                   [PrintSuccess("Added " + NatToString(|toStage|) + " file(s) to staging.")])
    else
      var target := args[0];
      match Lookup(s.files, target)
      case None => Outcome(s, [PathspecError(target)])
      case Some(status) =>
        if status == Committed then Outcome(s, [PrintOutput("'" + target + "' is already up to date.")])
        else if status == Staged then Outcome(s, [PrintOutput("'" + target + "' is already staged.")])
        else Outcome(s.(files := UpdateStatus(s.files, target, Staged)),
                     [PrintSuccess("Added '" + target + "' to staging.")])
  }

  lemma RestatusEmpty(files: FileTable, status: FileStatus)
    ensures Restatus(files, [], status) == files
  {
  }

  /** `names.forEach(f => updateFileStatus(f, status))`. */
  method SetEach(st: GitStore, names: seq<string>, status: FileStatus)
    requires st.Valid()
    modifies st
    ensures st.Valid()
    ensures st.Snapshot() == old(st.Snapshot()).(files := Restatus(old(st.files), names, status))
  {
    ghost var s0 := st.Snapshot();
    RestatusEmpty(s0.files, status);
    for i := 0 to |names|
      invariant st.Valid()
      invariant st.Snapshot() == s0.(files := Restatus(s0.files, names[..i], status))
    {
      RestatusStep(s0.files, names[..i], names[i], status);
      assert names[..i + 1] == names[..i] + [names[i]];
      st.UpdateFileStatus(names[i], status);
    }
    assert names[..|names|] == names;
  }

  method CmdGitAdd(st: GitStore, args: seq<string>) returns (calls: seq<Call>)
    requires st.Valid()
    modifies st
    ensures st.Valid()
    ensures Outcome(st.Snapshot(), calls) == AddStep(old(st.Snapshot()), args)
  {
    if !st.repo.isCloned {
      return [NotARepository];
    }
    if |args| == 0 {
      return [PrintError("Nothing specified, nothing added."),
              PrintOutput("hint: Maybe you wanted to say \"git add .\"?")];
    }
    var target := args[0];
    if target == "." {
      var toStage := ModifiedFiles(st.files) + UntrackedFiles(st.files);
      if |toStage| == 0 {
        return [PrintOutput("Nothing to add.")];
      }
      SetEach(st, toStage, Staged);
      return [PrintSuccess("Added " + NatToString(|toStage|) + " file(s) to staging.")];
    }
    var found := Lookup(st.files, target);
    if found.None? {
      return [PathspecError(target)];
    }
    var status := found.value;
    if status == Committed {
      return [PrintOutput("'" + target + "' is already up to date.")];
    }
    if status == Staged {
      return [PrintOutput("'" + target + "' is already staged.")];
    }
    st.UpdateFileStatus(target, Staged);
    calls := [PrintSuccess("Added '" + target + "' to staging.")];
  }

  /** `Restatus` seen through `Lookup`: a listed, present file takes the
      new status, every other answer is unchanged. */
  lemma RestatusLookup(files: FileTable, names: seq<string>, status: FileStatus, n: string)
    ensures Lookup(Restatus(files, names, status), n) ==
      if Lookup(files, n).Some? && n in names then Some(status) else Lookup(files, n)
  {
    FindSameNames(Restatus(files, names, status), files, n);
  }

  /** `git add .` stages exactly the modified and untracked files and leaves
      every other file as it was. */
  lemma AddAllStagesExactly(s: State, n: string)
    requires WellFormed(s) && s.repo.isCloned
    ensures var t := AddStep(s, ["."]).state;
      Lookup(t.files, n) ==
        if Lookup(s.files, n) == Some(Modified) || Lookup(s.files, n) == Some(Untracked)
        then Some(Staged) else Lookup(s.files, n)
  {
    var toStage := ModifiedFiles(s.files) + UntrackedFiles(s.files);
    BucketIffStatus(s.files, Modified, n);
    BucketIffStatus(s.files, Untracked, n);
    if toStage != [] {
      RestatusLookup(s.files, toStage, Staged, n);
    }
  }

  lemma BucketEmpty(files: FileTable, status: FileStatus)
    requires UniqueNames(files)
    requires forall n :: Lookup(files, n) != Some(status)
    ensures FilesByStatus(files, status) == []
  {
    var b := FilesByStatus(files, status);
    if b != [] {
      BucketIffStatus(files, status, b[0]);
    }
  }

  /** After `git add .` nothing is left to add: a second `git add .` says so
      and changes nothing. */
  lemma AddAllIdempotent(s: State)
    requires WellFormed(s) && s.repo.isCloned
    ensures var t := AddStep(s, ["."]).state;
      AddStep(t, ["."]) == Outcome(t, [PrintOutput("Nothing to add.")])
  {
    var t := AddStep(s, ["."]).state;
    var toStage := ModifiedFiles(s.files) + UntrackedFiles(s.files);
    if toStage != [] {
      assert SameNames(t.files, s.files);
      forall n ensures Lookup(t.files, n) != Some(Modified) && Lookup(t.files, n) != Some(Untracked) {
        AddAllStagesExactly(s, n);
      }
      BucketEmpty(t.files, Modified);
      BucketEmpty(t.files, Untracked);
    }
  }

  /** Adding one known file that is modified or untracked stages it and
      only it; adding it again changes nothing. */
  lemma AddOneIdempotent(s: State, target: string)
    requires WellFormed(s) && s.repo.isCloned && target != "."
    requires Lookup(s.files, target) == Some(Modified) || Lookup(s.files, target) == Some(Untracked)
    ensures var t := AddStep(s, [target]).state;
      && Lookup(t.files, target) == Some(Staged)
      && (forall n :: n != target ==> Lookup(t.files, n) == Lookup(s.files, n))
      && AddStep(t, [target]) == Outcome(t, [PrintOutput("'" + target + "' is already staged.")])
  {
  }

  // ---------------------------------------------------------------------
  // git commit

  /** The value that follows the first `-m`, if any. */
  function MessageArg(args: seq<string>): (r: Option<string>)
    ensures r.Some? ==> exists m :: 0 <= m < |args| - 1 && args[m] == "-m" && "-m" !in args[..m] && r.value == args[m + 1]
    ensures r.None? ==> args == [] || "-m" !in args[..|args| - 1]
  {
    var m := IndexOf(args, "-m");
    if m == -1 || m == |args| - 1 then None else Some(args[m + 1])
  }

  function CommitStep(s: State, args: seq<string>, host: Host): Outcome
    requires ValidHost(host)
  {
    if !s.repo.isCloned then Outcome(s, [NotARepository])
    else match MessageArg(args)
      case None =>
        Outcome(s, [PrintError("error: switch `m' requires a value"),
                    PrintOutput("usage: git commit -m \"message\"")])
      case Some(message) =>
        if message == "" || Trim(message) == "" then
          Outcome(s, [PrintError("Aborting commit due to empty commit message.")])
        else
          var staged := StagedFiles(s.files);
          if staged == [] then
            Outcome(s, [PrintError("nothing to commit (use \"git add\" to stage files)")])
          else
            var c := Commit(HashFor(host.rolls), message, host.now, staged);
            Outcome(s.(commits := s.commits + [c], files := Restatus(s.files, staged, Committed)),
              [PrintOutput("[" + s.repo.currentBranch + " " + c.hash + "] " + message),
               PrintOutput(" " + NatToString(|staged|) + " file(s) changed"),
               PrintSuccess("Commit created successfully.")])
  }

  method CmdGitCommit(st: GitStore, args: seq<string>, host: Host) returns (calls: seq<Call>)
    requires st.Valid() && ValidHost(host)
    modifies st
    ensures st.Valid()
    ensures Outcome(st.Snapshot(), calls) == CommitStep(old(st.Snapshot()), args, host)
  {
    if !st.repo.isCloned {
      return [NotARepository];
    }
    var m := IndexOf(args, "-m");
    if m == -1 || m == |args| - 1 {
      return [PrintError("error: switch `m' requires a value"), PrintOutput("usage: git commit -m \"message\"")];
    }
    var message := args[m + 1];
    assert MessageArg(args) == Some(message);
    if message == "" || Trim(message) == "" {
      return [PrintError("Aborting commit due to empty commit message.")];
    }
    var staged := StagedFiles(st.files);
    if |staged| == 0 {
      return [PrintError("nothing to commit (use \"git add\" to stage files)")];
    }
    var c := st.AddCommit(message, staged, host.rolls, host.now);
    SetEach(st, staged, Committed);
    calls := [PrintOutput("[" + st.repo.currentBranch + " " + c.hash + "] " + message),
              PrintOutput(" " + NatToString(|staged|) + " file(s) changed"),
              PrintSuccess("Commit created successfully.")];
  }

  /** A commit happens exactly when the repository is cloned, `-m` has a
      non-blank value and something is staged. */
  predicate CanCommit(s: State, args: seq<string>) {
    s.repo.isCloned && MessageArg(args).Some? && !IsBlank(MessageArg(args).value)
      && StagedFiles(s.files) != []
  }

  lemma CommitChangesIff(s: State, args: seq<string>, host: Host)
    requires ValidHost(host)
    ensures CommitStep(s, args, host).state != s <==> CanCommit(s, args)
  {
    if MessageArg(args).Some? {
      TrimEmptyIffBlank(MessageArg(args).value);
    }
    if CanCommit(s, args) {
      assert |CommitStep(s, args, host).state.commits| == |s.commits| + 1;
    }
  }

  /** A successful commit appends one commit recording exactly the staged
      files, with a well-shaped hash, and every staged file becomes
      committed while the others keep their status; nothing stays staged. */
  lemma CommitRecordsStaged(s: State, args: seq<string>, host: Host, n: string)
    requires WellFormed(s) && ValidHost(host)
    requires CanCommit(s, args)
    ensures var t := CommitStep(s, args, host).state;
      && |t.commits| == |s.commits| + 1
      && t.commits[..|s.commits|] == s.commits
      && t.commits[|s.commits|].files == StagedFiles(s.files)
      && IsHash(t.commits[|s.commits|].hash)
      && Lookup(t.files, n) == (if Lookup(s.files, n) == Some(Staged) then Some(Committed) else Lookup(s.files, n))
      && StagedFiles(t.files) == []
  {
    TrimEmptyIffBlank(MessageArg(args).value);
    var t := CommitStep(s, args, host).state;
    var staged := StagedFiles(s.files);
    assert t.files == Restatus(s.files, staged, Committed);
    assert t.commits[..|s.commits|] == s.commits;
    forall x ensures Lookup(t.files, x) == (if Lookup(s.files, x) == Some(Staged) then Some(Committed) else Lookup(s.files, x)) {
      BucketIffStatus(s.files, Staged, x);
      RestatusLookup(s.files, staged, Committed, x);
    }
    assert SameNames(t.files, s.files);
    BucketEmpty(t.files, Staged);
  }

  /** Without `-m` and a value after it, or with a blank message, nothing is committed. */
  lemma CommitNeedsMessage(s: State, args: seq<string>, host: Host)
    requires ValidHost(host)
    requires MessageArg(args).None? || IsBlank(MessageArg(args).value)
    ensures CommitStep(s, args, host).state == s
  {
    if MessageArg(args).Some? {
      TrimEmptyIffBlank(MessageArg(args).value);
    }
  }

  /** With nothing staged, nothing is committed. */
  lemma CommitNeedsStaged(s: State, args: seq<string>, host: Host)
    requires ValidHost(host) && StagedFiles(s.files) == []
    ensures CommitStep(s, args, host).state == s
  {
  }

  // ---------------------------------------------------------------------
  // git push

  function PushStep(s: State): Outcome {
    if !s.repo.isCloned then Outcome(s, [NotARepository])
    else
      var unpushed := UnpushedCommits(s.commits, s.pushedCommitCount);
      if unpushed == [] then Outcome(s, [PrintOutput("Everything up-to-date")])
      else
        var b := s.repo.currentBranch;
        Outcome(s.(pushedCommitCount := |s.commits|),
          [PrintOutput("Enumerating objects: " + NatToString(|unpushed| * 3) + ", done."),
           PrintOutput("Counting objects: 100%, done."),
           PrintOutput("Writing objects: 100%, done."),
           PrintOutput("To " + s.repo.remoteUrl),
           PrintOutput("   " + unpushed[0].hash + ".." + unpushed[|unpushed| - 1].hash + "  " + b + " -> " + b),
           PrintSuccess("Pushed " + NatToString(|unpushed|) + " commit(s) to origin/" + b)])
  }

  method CmdGitPush(st: GitStore) returns (calls: seq<Call>)
    requires st.Valid()
    modifies st
    ensures st.Valid()
    ensures Outcome(st.Snapshot(), calls) == PushStep(old(st.Snapshot()))
  {
    if !st.repo.isCloned {
      return [NotARepository];
    }
    var unpushed := UnpushedCommits(st.commits, st.pushedCommitCount);
    if |unpushed| == 0 {
      return [PrintOutput("Everything up-to-date")];
    }
    var repo := st.repo;
    calls := [PrintOutput("Enumerating objects: " + NatToString(|unpushed| * 3) + ", done."),
              PrintOutput("Counting objects: 100%, done."),
              PrintOutput("Writing objects: 100%, done."),
              PrintOutput("To " + repo.remoteUrl)];
    var firstHash := unpushed[0].hash;
    var lastHash := unpushed[|unpushed| - 1].hash;
    calls := calls + [PrintOutput("   " + firstHash + ".." + lastHash + "  " + repo.currentBranch + " -> " + repo.currentBranch)];
    st.SetPushedCommitCount(|st.commits|);
    calls := calls + [PrintSuccess("Pushed " + NatToString(|unpushed|) + " commit(s) to origin/" + repo.currentBranch)];
  }

  /** A push with unpushed commits moves the cursor to the end, names the
      first and the last unpushed hash, and leaves nothing unpushed. */
  lemma PushPublishes(s: State)
    requires s.repo.isCloned && s.pushedCommitCount < |s.commits|
    ensures var o := PushStep(s);
      && o.state == s.(pushedCommitCount := |s.commits|)
      && UnpushedCommits(o.state.commits, o.state.pushedCommitCount) == []
      && PushedCommits(o.state.commits, o.state.pushedCommitCount) == s.commits
      && |o.calls| == 6
      && o.calls[4] == PrintOutput("   " + s.commits[s.pushedCommitCount].hash + ".."
           + s.commits[|s.commits| - 1].hash + "  " + s.repo.currentBranch + " -> " + s.repo.currentBranch)
  {
    var unpushed := UnpushedCommits(s.commits, s.pushedCommitCount);
    var pushed := PushedCommits(s.commits, s.pushedCommitCount);
    assert pushed + unpushed == s.commits;
    assert unpushed[0] == (pushed + unpushed)[|pushed|];
    assert unpushed[|unpushed| - 1] == (pushed + unpushed)[|s.commits| - 1];
  }

  /** With nothing unpushed, a push is the up-to-date no-op. */
  lemma PushUpToDate(s: State)
    requires s.repo.isCloned && !HasUnpushedCommits(s.commits, s.pushedCommitCount)
    ensures PushStep(s) == Outcome(s, [PrintOutput("Everything up-to-date")])
  {
  }

  /** A push right after a push is the up-to-date no-op. */
  lemma PushIdempotent(s: State)
    requires s.repo.isCloned
    ensures var t := PushStep(s).state;
      PushStep(t) == Outcome(t, [PrintOutput("Everything up-to-date")])
  {
    PushUpToDate(PushStep(s).state);
  }

  // ---------------------------------------------------------------------
  // git log

  function LogEntry(c: Commit, localeDate: string -> string): seq<Call> {
    [PrintOutput("commit " + c.hash), PrintOutput("Date:   " + localeDate(c.timestamp)),
     PrintOutput(""), PrintOutput("    " + c.message), PrintOutput("")]
  }

  /** The entries of `cs`, in the order given. */
  function LogEntries(cs: seq<Commit>, localeDate: string -> string): seq<Call> {
    if cs == [] then [] else LogEntries(cs[..|cs| - 1], localeDate) + LogEntry(cs[|cs| - 1], localeDate)
  }

  /** `[...commits].reverse()`. */
  function Reverse<T>(s: seq<T>): (r: seq<T>)
    ensures |r| == |s| && forall i :: 0 <= i < |s| ==> r[i] == s[|s| - 1 - i]
  {
    if s == [] then [] else [s[|s| - 1]] + Reverse(s[..|s| - 1])
  }

  /** Reversing twice gives the list back. */
  lemma ReverseInvolutive<T>(s: seq<T>)
    ensures Reverse(Reverse(s)) == s
  {
  }

  function LogStep(s: State, localeDate: string -> string): seq<Call> {
    if !s.repo.isCloned then [NotARepository]
    else if s.commits == [] then [PrintOutput("No commits yet.")]
    else LogEntries(Reverse(s.commits), localeDate)
  }

  method CmdGitLog(st: GitStore, localeDate: string -> string) returns (calls: seq<Call>)
    ensures calls == LogStep(st.Snapshot(), localeDate)
  {
    if !st.repo.isCloned {
      return [NotARepository];
    }
    var commits := st.commits;
    if |commits| == 0 {
      return [PrintOutput("No commits yet.")];
    }
    var reversed := Reverse(commits);
    calls := [];
    for k := 0 to |reversed|
      invariant calls == LogEntries(reversed[..k], localeDate)
    {
      calls := calls + LogEntry(reversed[k], localeDate);
      assert reversed[..k + 1][..k] == reversed[..k];
    }
    assert reversed[..|reversed|] == reversed;
  }

  /** Block `k` of five calls of `LogEntries(cs)` is the entry of `cs[k]`. */
  function Block(calls: seq<Call>, k: nat): seq<Call>
    requires 5 * k + 5 <= |calls|
  {
    calls[5 * k..5 * k + 5]
  }

  lemma {:induction false} LogEntriesBlocks(cs: seq<Commit>, localeDate: string -> string)
    ensures |LogEntries(cs, localeDate)| == 5 * |cs|
    ensures forall k :: 0 <= k < |cs| ==> Block(LogEntries(cs, localeDate), k) == LogEntry(cs[k], localeDate)
  {
    if cs != [] {
      var init := cs[..|cs| - 1];
      LogEntriesBlocks(init, localeDate);
      var a := LogEntries(init, localeDate);
      var r := LogEntries(cs, localeDate);
      assert r == a + LogEntry(cs[|cs| - 1], localeDate);
      forall k | 0 <= k < |cs| ensures Block(r, k) == LogEntry(cs[k], localeDate) {
        if k < |cs| - 1 {
          assert Block(r, k) == Block(a, k);
          assert init[k] == cs[k];
        } else {
          assert Block(r, k) == r[|a|..];
        }
      }
    }
  }

  /** The log shows every commit once, newest first: block `k` is the
      `k`-th newest commit. */
  lemma LogNewestFirst(s: State, localeDate: string -> string)
    requires s.repo.isCloned && s.commits != []
    ensures |LogStep(s, localeDate)| == 5 * |s.commits|
    ensures forall k :: 0 <= k < |s.commits| ==>
      Block(LogStep(s, localeDate), k) == LogEntry(s.commits[|s.commits| - 1 - k], localeDate)
  {
    LogEntriesBlocks(Reverse(s.commits), localeDate);
  }

  // ---------------------------------------------------------------------
  // git reset HEAD <file>

  function ResetStep(s: State, args: seq<string>): Outcome {
    if !s.repo.isCloned then Outcome(s, [NotARepository])
    else if |args| < 2 || Upper(args[0]) != "HEAD" then Outcome(s, [PrintError("usage: git reset HEAD <file>")])
    else
      var target := args[1];
      match Lookup(s.files, target)
      case None => Outcome(s, [PathspecError(target)])
      case Some(status) =>
        if status != Staged then Outcome(s, [PrintOutput("'" + target + "' is not staged.")])
        else Outcome(s.(files := UpdateStatus(s.files, target, Modified)),
                     [PrintOutput("Unstaged changes after reset:"), PrintOutput("M\t" + target)])
  }

  method CmdGitReset(st: GitStore, args: seq<string>) returns (calls: seq<Call>)
    requires st.Valid()
    modifies st
    ensures st.Valid()
    ensures Outcome(st.Snapshot(), calls) == ResetStep(old(st.Snapshot()), args)
  {
    if !st.repo.isCloned {
      return [NotARepository];
    }
    if |args| < 2 || Upper(args[0]) != "HEAD" {
      return [PrintError("usage: git reset HEAD <file>")];
    }
    var target := args[1];
    var found := Lookup(st.files, target);
    if found.None? {
      return [PathspecError(target)];
    }
    if found.value != Staged {
      return [PrintOutput("'" + target + "' is not staged.")];
    }
    st.UpdateFileStatus(target, Modified);
    calls := [PrintOutput("Unstaged changes after reset:"), PrintOutput("M\t" + target)];
  }

  /** Setting a file back to the status it had restores the table. */
  lemma UpdateStatusRestores(files: FileTable, name: string, status: FileStatus, other: FileStatus)
    requires UniqueNames(files) && Lookup(files, name) == Some(status)
    ensures UpdateStatus(UpdateStatus(files, name, other), name, status) == files
  {
    var mid := UpdateStatus(files, name, other);
    var r := UpdateStatus(mid, name, status);
    var i := Find(files, name).value;
    FindSameNames(mid, files, name);
    FindSameNames(r, files, name);
    assert r[i] == files[i];
    assert forall j :: 0 <= j < |files| && j != i ==> files[j].name != name;
  }

  /** `git reset HEAD f` undoes `git add f` of a modified file. */
  lemma ResetUndoesAdd(s: State, f: string)
    requires WellFormed(s) && s.repo.isCloned && f != "."
    requires Lookup(s.files, f) == Some(Modified)
    ensures ResetStep(AddStep(s, [f]).state, ["HEAD", f]).state == s
  {
    assert Upper("HEAD") == "HEAD";
    var t := AddStep(s, [f]).state;
    assert Lookup(t.files, f) == Some(Staged);
    UpdateStatusRestores(s.files, f, Modified, Staged);
  }

  /** Reset only ever moves a staged file to modified, never to untracked;
      every other file keeps its status. */
  lemma ResetToModified(s: State, args: seq<string>, n: string)
    requires WellFormed(s)
    ensures var t := ResetStep(s, args).state;
      && (Lookup(t.files, n) != Lookup(s.files, n) ==>
            Lookup(s.files, n) == Some(Staged) && Lookup(t.files, n) == Some(Modified))
      && t.commits == s.commits && t.pushedCommitCount == s.pushedCommitCount
  {
  }

  /** `HEAD` matches case-insensitively: any spelling that upper-cases to
      `HEAD` acts as `HEAD`, and any other first argument is the usage error. */
  lemma ResetHeadAnyCase(s: State, h: string, rest: seq<string>)
    requires Upper(h) == "HEAD"
    ensures ResetStep(s, [h] + rest) == ResetStep(s, ["HEAD"] + rest)
  {
    assert Upper("HEAD") == "HEAD";
    assert ([h] + rest)[1..] == rest == (["HEAD"] + rest)[1..];
  }

  lemma ResetNeedsHead(s: State, args: seq<string>)
    requires s.repo.isCloned && args != [] && Upper(args[0]) != "HEAD"
    ensures ResetStep(s, args) == Outcome(s, [PrintError("usage: git reset HEAD <file>")])
  {
  }

  /** For example, `git reset head f` and `git reset Head f` unstage like `git reset HEAD f`. */
  lemma ResetHeadExample(s: State, f: string)
    ensures ResetStep(s, ["head", f]) == ResetStep(s, ["HEAD", f])
    ensures ResetStep(s, ["Head", f]) == ResetStep(s, ["HEAD", f])
  {
    assert Upper("head") == "HEAD";
    assert Upper("Head") == "HEAD";
    ResetHeadAnyCase(s, "head", [f]);
    ResetHeadAnyCase(s, "Head", [f]);
  }

  // ---------------------------------------------------------------------
  // executeCommand

  datatype Command =
    | Empty
    | Help
    | Clear
    | GitUsage
    | GitClone(args: seq<string>)
    | GitStatus
    | GitAdd(args: seq<string>)
    | GitCommit(args: seq<string>)
    | GitPush
    | GitLog
    | GitReset(args: seq<string>)
    | UnknownGit(name: string)
    | Unknown(name: string)

  /** The seven git subcommands the simulator implements. */
  predicate GitSubcommand(w: string) {
    w == "clone" || w == "status" || w == "add" || w == "commit" || w == "push" || w == "log" || w == "reset"
  }

  /** Which handler `executeCommand` picks for the tokens. */
  function Route(parts: seq<string>): (r: Command)
    ensures r.Empty? <==> parts == []
    ensures r.Unknown? <==>
      parts != [] && Lower(parts[0]) != "help" && Lower(parts[0]) != "clear" && Lower(parts[0]) != "git"
    ensures r.Unknown? ==> r.name == Lower(parts[0])
    ensures r.GitUsage? <==> |parts| == 1 && Lower(parts[0]) == "git"
    ensures r.UnknownGit? <==> |parts| >= 2 && Lower(parts[0]) == "git" && !GitSubcommand(Lower(parts[1]))
    ensures r.UnknownGit? ==> r.name == Lower(parts[1])
  {
    if parts == [] then Empty
    else
      var command := Lower(parts[0]);
      var args := parts[1..];
      if command == "help" then Help
      else if command == "clear" then Clear
      else if command == "git" then
        if args == [] then GitUsage
        else
          var gitCommand := Lower(args[0]);
          var gitArgs := args[1..];
          if gitCommand == "clone" then GitClone(gitArgs)
          else if gitCommand == "status" then GitStatus
          else if gitCommand == "add" then GitAdd(gitArgs)
          else if gitCommand == "commit" then GitCommit(gitArgs)
          else if gitCommand == "push" then GitPush
          else if gitCommand == "log" then GitLog
          else if gitCommand == "reset" then GitReset(gitArgs)
          else UnknownGit(gitCommand)
      else Unknown(command)
  }

  /** The command word and the git subcommand are matched case-insensitively. */
  lemma RouteIgnoresCase(parts: seq<string>, other: seq<string>)
    requires |parts| == |other| && parts != []
    requires Lower(parts[0]) == Lower(other[0])
    requires |parts| >= 2 ==> Lower(parts[1]) == Lower(other[1])
    requires |parts| >= 2 ==> parts[2..] == other[2..]
    ensures Route(parts) == Route(other)
  {
    if |parts| >= 2 {
      assert parts[1..][1..] == parts[2..];
      assert other[1..][1..] == other[2..];
    }
  }

  /** For example, `GIT Status` is `git status`. */
  lemma RouteExample()
    ensures Route(["GIT", "Status"]) == GitStatus
  {
    assert Lower("GIT") == "git";
    assert Lower("Status") == "status";
  }

  /** The handlers that stop with the not-a-repository error before a clone. */
  predicate NeedsRepository(cmd: Command) {
    cmd.GitStatus? || cmd.GitAdd? || cmd.GitCommit? || cmd.GitPush? || cmd.GitLog? || cmd.GitReset?
  }

  /** The commands that may change the store. */
  predicate MayChangeState(cmd: Command) {
    cmd.GitClone? || cmd.GitAdd? || cmd.GitCommit? || cmd.GitPush? || cmd.GitReset?
  }

  function Dispatch(s: State, cmd: Command, host: Host): Outcome
    requires ValidHost(host)
  {
    match cmd
    case Empty => Outcome(s, [])
    case Help => Outcome(s, HelpCalls())
    case Clear => Outcome(s, [ClearOutput])
    case GitUsage => Outcome(s, [PrintError("usage: git <command> [<args>]")])
    case GitClone(a) => CloneStep(s, a)
    case GitStatus => Outcome(s, StatusReport(s))
    case GitAdd(a) => AddStep(s, a)
    case GitCommit(a) => CommitStep(s, a, host)
    case GitPush => PushStep(s)
    case GitLog => Outcome(s, LogStep(s, host.localeDate))
    case GitReset(a) => ResetStep(s, a)
    case UnknownGit(w) => Outcome(s, [PrintError("git: '" + w + "' is not a git command."), PrintOutput(HelpHint)])
    case Unknown(w) => Outcome(s, [PrintError("command not found: " + w), PrintOutput(HelpHint)])
  }

  /** `executeCommand(input)`. */
  function Execute(s: State, input: string, host: Host): Outcome
    requires ValidHost(host)
  {
    Dispatch(s, Route(Tokens(input)), host)
  }

  method ExecuteCommand(st: GitStore, input: string, host: Host) returns (calls: seq<Call>)
    requires st.Valid() && ValidHost(host)
    modifies st
    ensures st.Valid()
    ensures Outcome(st.Snapshot(), calls) == Execute(old(st.Snapshot()), input, host)
  {
    var parts := ParseCommand(input);
    var cmd := Route(parts);
    match cmd {
      case Empty => calls := [];
      case Help => calls := CmdHelp();
      case Clear => calls := [ClearOutput];
      case GitUsage => calls := [PrintError("usage: git <command> [<args>]")];
      case GitClone(a) => calls := CmdGitClone(st, a);
      case GitStatus => calls := CmdGitStatus(st);
      case GitAdd(a) => calls := CmdGitAdd(st, a);
      case GitCommit(a) => calls := CmdGitCommit(st, a, host);
      case GitPush => calls := CmdGitPush(st);
      case GitLog => calls := CmdGitLog(st, host.localeDate);
      case GitReset(a) => calls := CmdGitReset(st, a);
      case UnknownGit(w) => calls := [PrintError("git: '" + w + "' is not a git command."), PrintOutput(HelpHint)];
      case Unknown(w) => calls := [PrintError("command not found: " + w), PrintOutput(HelpHint)];
    }
  }

  /** Input made only of spaces does nothing at all. */
  lemma ExecuteSpaces(s: State, input: string, host: Host)
    requires ValidHost(host) && forall i :: 0 <= i < |input| ==> input[i] == ' '
    ensures Execute(s, input, host) == Outcome(s, [])
  {
    SpacesScan(input);
  }

  lemma {:induction false} SpacesScan(input: string)
    requires forall i :: 0 <= i < |input| ==> input[i] == ' '
    ensures Run(Start, input) == Start
  {
    if input != [] {
      SpacesScan(input[..|input| - 1]);
    }
  }

  /** Commands other than the five mutating handlers never change the store. */
  lemma ExecuteReadOnly(s: State, input: string, host: Host)
    requires ValidHost(host) && !MayChangeState(Route(Tokens(input)))
    ensures Execute(s, input, host).state == s
  {
  }

  /** Before a clone every handler but clone reports the missing repository
      and changes nothing. */
  lemma ExecuteNeedsRepository(s: State, input: string, host: Host)
    requires ValidHost(host) && !s.repo.isCloned && NeedsRepository(Route(Tokens(input)))
    ensures Execute(s, input, host) == Outcome(s, [NotARepository])
  {
  }

  /** An unknown command or subcommand is an error plus the help hint. */
  lemma ExecuteUnknown(s: State, input: string, host: Host)
    requires ValidHost(host) && (Route(Tokens(input)).Unknown? || Route(Tokens(input)).UnknownGit?)
    ensures Execute(s, input, host).state == s
    ensures |Execute(s, input, host).calls| == 2
    ensures Execute(s, input, host).calls[0].PrintError? && Execute(s, input, host).calls[1] == PrintOutput(HelpHint)
  {
  }

  /** What every command keeps: the store's invariants, the commits already
      made (the list only grows at its end), and the push cursor within the list. */
  predicate Keeps(s: State, t: State) {
    && WellFormed(t)
    && |t.commits| >= |s.commits| && t.commits[..|s.commits|] == s.commits
    && (s.pushedCommitCount <= |s.commits| ==> t.pushedCommitCount <= |t.commits|)
  }

  lemma KeepsSame(s: State)
    requires WellFormed(s)
    ensures Keeps(s, s)
  {
    assert s.commits[..|s.commits|] == s.commits;
  }

  lemma CloneKeeps(s: State, args: seq<string>)
    requires WellFormed(s)
    ensures Keeps(s, CloneStep(s, args).state)
  {
    KeepsSame(s);
  }

  lemma AddKeeps(s: State, args: seq<string>)
    requires WellFormed(s)
    ensures Keeps(s, AddStep(s, args).state)
  {
    KeepsSame(s);
  }

  lemma CommitKeeps(s: State, args: seq<string>, host: Host)
    requires WellFormed(s) && ValidHost(host)
    ensures Keeps(s, CommitStep(s, args, host).state)
  {
    KeepsSame(s);
    var t := CommitStep(s, args, host).state;
    if t != s {
      assert t.files == Restatus(s.files, StagedFiles(s.files), Committed);
      assert t.commits[..|s.commits|] == s.commits;
    }
  }

  lemma PushKeeps(s: State)
    requires WellFormed(s)
    ensures Keeps(s, PushStep(s).state)
  {
    KeepsSame(s);
  }

  lemma ResetKeeps(s: State, args: seq<string>)
    requires WellFormed(s)
    ensures Keeps(s, ResetStep(s, args).state)
  {
    KeepsSame(s);
  }

  /** Every command keeps the store's invariants, only ever appends to the
      commit list, and keeps the push cursor within it. */
  lemma ExecuteKeepsInvariants(s: State, input: string, host: Host)
    requires ValidHost(host) && WellFormed(s)
    ensures Keeps(s, Execute(s, input, host).state)
  {
    KeepsSame(s);
    match Route(Tokens(input))
    case GitClone(a) => CloneKeeps(s, a);
    case GitAdd(a) => AddKeeps(s, a);
    case GitCommit(a) => CommitKeeps(s, a, host);
    case GitPush => PushKeeps(s);
    case GitReset(a) => ResetKeeps(s, a);
    case _ =>
  }
}
