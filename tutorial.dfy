/** The tutorial guide: which of the seven steps the learner is at, the
    text shown for each step, and whether the step's command gets a copy
    button. */
module Tutorial {
  import opened Text
  import opened Store
  import opened Commands
  import opened LocalFiles

  datatype Step = NotCloned | ClonedNoFiles | HasUntracked | HasModified | HasStaged | HasUnpushed | AllPushed

  datatype StepInfo = StepInfo(title: string, hint: string, command: string, explanation: string)

  /** The remote address the first step tells the learner to clone. */
  const DemoUrl: string := "https://" + "github.com" + "/user/my-project.git"

  /** The command line each step of `TUTORIAL_STEPS` suggests. */
  function Command(step: Step): string {
    match step
    case NotCloned => "git " + "clone " + DemoUrl
    case ClonedNoFiles => "Click " + "\"+ Add File\" button above"
    case HasUntracked => "git " + "add ."
    case HasModified => "git " + "add ."
    case HasStaged => "git " + "commit -m \"your message\""
    case HasUnpushed => "git " + "push"
    case AllPushed => "Click " + "\"Edit\" on a file to modify it"
  }

  function Title(step: Step): string {
    match step
    case NotCloned => "Step 1: Clone the repository"
    case ClonedNoFiles => "Step 2: Create a file"
    case HasUntracked => "Step 3: Stage your changes"
    case HasModified => "Step 3: Stage your changes"
    case HasStaged => "Step 4: Commit your changes"
    case HasUnpushed => "Step 5: Push to remote"
    case AllPushed => "Complete!"
  }

  function Hint(step: Step): string {
    match step
    case NotCloned => "First, clone the repository to start working locally."
    case ClonedNoFiles => "Now create a new file to track."
    case HasUntracked => "Add your new files to the staging area."
    case HasModified => "Stage your modified files."
    case HasStaged => "Create a snapshot of your staged changes."
    case HasUnpushed => "Send your commits to GitHub."
    case AllPushed => "Your changes are now on GitHub! Try making more changes."
  }

  function Explanation(step: Step): string {
    match step
    case NotCloned => "git clone copies a remote repository to your local machine."
    case ClonedNoFiles => "In real development, you would create or edit files in your project folder."
    case HasUntracked => "git add moves files to the \"staging area\" - preparing them for commit."
    case HasModified => "Modified files need to be staged before committing."
    case HasStaged => "git commit saves a snapshot of your staged changes with a message."
    case HasUnpushed => "git push uploads your local commits to the remote repository (GitHub)."
    case AllPushed => "The cycle continues: edit -> add -> commit -> push"
  }

  /** The entry of `TUTORIAL_STEPS` for a step: every step has one. */
  function Info(step: Step): StepInfo {
    StepInfo(Title(step), Hint(step), Command(step), Explanation(step))
  }

  /** The "just cloned" test: one file, `README.md`, committed, and neither
      an untracked nor a modified file. */
  predicate OnlyReadmeCommitted(s: State) {
    && |s.files| == 1
    && Lookup(s.files, "README.md") == Some(Committed)
    && UntrackedFiles(s.files) == [] && ModifiedFiles(s.files) == []
  }

  /** `detectCurrentStep()`, as written. */
  function DetectCurrentStep(s: State): Step {
    if !s.repo.isCloned then NotCloned
    else if OnlyReadmeCommitted(s) then ClonedNoFiles
    else if UntrackedFiles(s.files) != [] then HasUntracked
    else if ModifiedFiles(s.files) != [] then HasModified
    else if StagedFiles(s.files) != [] then HasStaged
    else if UnpushedCommits(s.commits, s.pushedCommitCount) != [] then HasUnpushed
    else AllPushed
  }

  lemma OnlyReadmeShape(s: State)
    ensures OnlyReadmeCommitted(s) <==> s.files == [FileEntry("README.md", Committed)]
  {
    if s.files == [FileEntry("README.md", Committed)] {
      assert Find(s.files, "README.md") == Some(0);
      assert forall n :: n in FilesByStatus(s.files, Untracked) ==> false;
      assert forall n :: n in FilesByStatus(s.files, Modified) ==> false;
    }
  }

  /** The step in terms of the buckets: before a clone always step 1; "create
      a file" exactly for the freshly cloned table; then untracked before
      modified before staged before unpushed; "complete" only when nothing
      is pending at all. */
  lemma DetectCharacterization(s: State)
    ensures DetectCurrentStep(s) == NotCloned <==> !s.repo.isCloned
    ensures DetectCurrentStep(s) == ClonedNoFiles <==>
      s.repo.isCloned && s.files == [FileEntry("README.md", Committed)]
    ensures DetectCurrentStep(s) == HasUntracked <==> s.repo.isCloned && UntrackedFiles(s.files) != []
    ensures DetectCurrentStep(s) == HasModified <==>
      s.repo.isCloned && UntrackedFiles(s.files) == [] && ModifiedFiles(s.files) != []
    ensures DetectCurrentStep(s) == HasStaged <==>
      s.repo.isCloned && UntrackedFiles(s.files) == [] && ModifiedFiles(s.files) == [] && StagedFiles(s.files) != []
    ensures DetectCurrentStep(s) == HasUnpushed <==>
      s.repo.isCloned && s.files != [FileEntry("README.md", Committed)] && !HasChanges(s.files)
      && HasUnpushedCommits(s.commits, s.pushedCommitCount)
    ensures DetectCurrentStep(s) == AllPushed <==>
      s.repo.isCloned && s.files != [FileEntry("README.md", Committed)] && !HasChanges(s.files)
      && !HasUnpushedCommits(s.commits, s.pushedCommitCount)
  {
    OnlyReadmeShape(s);
    HasChangesIff(s.files);
    if s.files == [FileEntry("README.md", Committed)] {
      assert forall n :: n in FilesByStatus(s.files, Staged) ==> false;
    }
  }

  /** `showCopyBtn`. */
  predicate ShowCopyButton(step: Step) {
    step != ClonedNoFiles && step != AllPushed
  }

  lemma GitLine(rest: string)
    ensures StartsWith("git " + rest, "git ")
  {
    assert ("git " + rest)[..4] == "git ";
  }

  lemma ClickLine(rest: string)
    ensures !StartsWith("Click " + rest, "git ")
  {
    var c := "Click " + rest;
    assert c[..4][0] == 'C';
  }

  /** The copy button appears exactly for the steps whose command is a git
      command line, the ones that can be pasted into the terminal. */
  lemma CopyButtonIffGitCommand(step: Step)
    ensures ShowCopyButton(step) <==> StartsWith(Command(step), "git ")
  {
    match step
    case NotCloned => GitLine("clone " + DemoUrl);
    case ClonedNoFiles => ClickLine("\"+ Add File\" button above");
    case HasUntracked => GitLine("add .");
    case HasModified => GitLine("add .");
    case HasStaged => GitLine("commit -m \"your message\"");
    case HasUnpushed => GitLine("push");
    case AllPushed => ClickLine("\"Edit\" on a file to modify it");
  }

  // ---------------------------------------------------------------------
  // The README-only commit

  const ReadmeOnly: FileTable := [FileEntry("README.md", Committed)]

  lemma CloneGivesReadme()
    ensures var s := CloneStep(InitialState, [DemoUrl]).state;
      s == InitialState.(repo := InitialState.repo.(isCloned := true), files := ReadmeOnly)
  {
    assert OccursAt(DemoUrl, "github.com", 8);
  }

  lemma EditReadme(s: State)
    requires s.files == ReadmeOnly
    ensures EditStep(s, "README.md").state == s.(files := [FileEntry("README.md", Modified)])
  {
    assert Lookup(s.files, "README.md") == Some(Committed);
  }

  lemma AddReadme(s: State)
    requires s.repo.isCloned && s.files == [FileEntry("README.md", Modified)]
    ensures AddStep(s, ["."]).state == s.(files := [FileEntry("README.md", Staged)])
  {
    assert ModifiedFiles(s.files) == ["README.md"];
    assert UntrackedFiles(s.files) == [];
  }

  lemma CommitReadme(s: State, args: seq<string>, host: Host)
    requires ValidHost(host) && s.repo.isCloned && s.files == [FileEntry("README.md", Staged)]
    requires MessageArg(args).Some? && Trim(MessageArg(args).value) != ""
    ensures var t := CommitStep(s, args, host).state;
      t.files == ReadmeOnly && |t.commits| == |s.commits| + 1 && t.pushedCommitCount == s.pushedCommitCount
  {
    var staged := StagedFiles(s.files);
    assert staged == ["README.md"];
    var m := MessageArg(args).value;
    assert m != "";
    assert CommitStep(s, args, host).state ==
      s.(commits := s.commits + [Commit(HashFor(host.rolls), m, host.now, staged)],
         files := Restatus(s.files, staged, Committed));
    RestatusReadme(s.files);
  }

  lemma RestatusReadme(files: FileTable)
    requires files == [FileEntry("README.md", Staged)]
    ensures Restatus(files, ["README.md"], Committed) == ReadmeOnly
  {
  }

  lemma MessageOf(message: string)
    ensures MessageArg(["-m", message]) == Some(message)
  {
    assert IndexOf(["-m", message], "-m") == 0;
  }

  /** Clone, edit `README.md`, `git add .`, `git commit -m <message>` with
      any non-blank message: the table is again just the committed
      `README.md`, so the guide says "create a file" although a commit is
      waiting to be pushed. */
  lemma ReadmeCommitHidesPush(host: Host, message: string)
    requires ValidHost(host) && !IsBlank(message)
    ensures var s1 := CloneStep(InitialState, [DemoUrl]).state;
      var s2 := EditStep(s1, "README.md").state;
      var s3 := AddStep(s2, ["."]).state;
      var s4 := CommitStep(s3, ["-m", message], host).state;
      && |s4.commits| == 1 && s4.pushedCommitCount == 0
      && HasUnpushedCommits(s4.commits, s4.pushedCommitCount)
      && DetectCurrentStep(s4) == ClonedNoFiles
  {
    CloneGivesReadme();
    var s1 := CloneStep(InitialState, [DemoUrl]).state;
    EditReadme(s1);
    var s2 := EditStep(s1, "README.md").state;
    AddReadme(s2);
    var s3 := AddStep(s2, ["."]).state;
    MessageOf(message);
    TrimEmptyIffBlank(message);
    CommitReadme(s3, ["-m", message], host);
    var s4 := CommitStep(s3, ["-m", message], host).state;
    OnlyReadmeShape(s4);
  }

  /** The evident intent: the "create a file" step only when nothing waits
      to be pushed either. */
  function DetectIntendedStep(s: State): Step {
    if !s.repo.isCloned then NotCloned
    else if OnlyReadmeCommitted(s) && !HasUnpushedCommits(s.commits, s.pushedCommitCount) then ClonedNoFiles
    else if UntrackedFiles(s.files) != [] then HasUntracked
    else if ModifiedFiles(s.files) != [] then HasModified
    else if StagedFiles(s.files) != [] then HasStaged
    else if UnpushedCommits(s.commits, s.pushedCommitCount) != [] then HasUnpushed
    else AllPushed
  }

  /** With the intended test, a cloned repository with nothing to stage or
      commit but commits to push is always told to push, and the two
      classifiers differ only there. */
  lemma IntendedShowsPush(s: State)
    requires s.repo.isCloned
    ensures !HasChanges(s.files) && HasUnpushedCommits(s.commits, s.pushedCommitCount) ==>
      DetectIntendedStep(s) == HasUnpushed
    ensures DetectIntendedStep(s) != DetectCurrentStep(s) ==>
      DetectCurrentStep(s) == ClonedNoFiles && DetectIntendedStep(s) == HasUnpushed
  {
    HasChangesIff(s.files);
    OnlyReadmeShape(s);
    if s.files == [FileEntry("README.md", Committed)] {
      assert forall n :: n in FilesByStatus(s.files, Staged) ==> false;
    }
  }

  datatype TutorialView = TutorialView(info: StepInfo, copyButton: bool)

  /** `renderTutorial()`'s content: the current step's text and whether it
      gets a copy button. */
  function RenderTutorial(s: State): (r: TutorialView)
    ensures r.copyButton <==> StartsWith(r.info.command, "git ")
    ensures r.info == Info(DetectCurrentStep(s))
    ensures !s.repo.isCloned ==> r.info.command == "git clone " + DemoUrl && r.copyButton
  {
    var step := DetectCurrentStep(s);
    CopyButtonIffGitCommand(step);
    CloneCommandShown();
    TutorialView(Info(step), ShowCopyButton(step))
  }

  lemma CloneCommandShown()
    ensures Info(NotCloned).command == "git clone " + DemoUrl && ShowCopyButton(NotCloned)
  {
    assert "git " + "clone " == "git clone ";
  }
}
