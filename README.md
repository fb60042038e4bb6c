# github-ui-guide: a verified model of the simulated git engine

github-ui-guide is a browser page for learning git. It has a terminal where the
learner types git commands, a local-files pane, a status panel, a tutorial guide
and a mock GitHub repository page. The terminal commands run against one
in-memory store. This project models in Dafny:

- the store (`src/js/app.js`);
- the command parser, the dispatcher and the seven git handlers (`src/js/commands.js`);
- the rules in the other panes that read or change the store.

It then proves properties of that model.

Modules, in dependency order:

- `Text`: the JavaScript string operations the code relies on:
  - `trim` with ECMAScript's white-space set;
  - `split` and `join`;
  - `startsWith` and `includes`;
  - `padEnd`;
  - ASCII `toLowerCase` and `toUpperCase`;
  - template-literal rendering of a non-negative integer.
- `Store`: the state and its operations.
  - The state is a value. The file table is an insertion-ordered list of entries, one per name.
  - `GitStore` is a class with one field per part of the state, and one method per setter of `app.js`.
  - Each setter is proved against a pure function of the old state.
  - Every setter keeps `Valid()`: unique file names, no branch twice, pull-request ids 1, 2, 3, ….
- `Output`: the terminal calls a handler makes (`printOutput`, `printError`, …,
  `clearOutput`), and the lines each call adds.
- `Parser`: `parseCommand`, both as the source's character loop and as a function over the input, with lemmas about quoting.
- `Commands`:
  - `executeCommand` and the handlers for help, clone, status, add, commit, push, log and reset.
  - Each handler is a `GitStore` method. It is proved equal to a step function that returns the next state and the calls made.
  - The properties are lemmas about those step functions.
- `LocalFiles`: editing a file, and the add-file dialog with its file-name rules.
- `Tutorial`: how the guide classifies the learner's state into seven steps, and the copy-button rule.
- `StatusPanel`: the panel's indicator precedence, its stats row and the commit-count label.
- `GitHubView`: the remote page, which is
  - an empty-repository page until something is pushed;
  - then a list of every pushed file, each with its newest pushed commit, and a relative-time label.
- `Cli`: the terminal's command history and its Enter and arrow-key handling, as a class over its four pieces of state.

Inputs from outside the program are parameters (`Host`):

- the seven random draws of a commit hash;
- the current time as a string;
- `toLocaleString` of a stored timestamp;
- the elapsed milliseconds shown by the GitHub page (`ageMs`).

What the code does, and does not do:

- The code has no handlers for `git diff`, `checkout`, `branch`, `pull` or pull requests.
  These words give the "is not a git command" error, as `executeCommand`'s `default` branch does.
- `git reset` has no soft-reset form. Only `reset HEAD <file>` exists, and it always moves the file to modified.
- Removing the branch `main` is not refused (`Store.MainIsRemovable`).
- The clone check is a substring test: an argument containing `github.com` or the remote url is accepted.
- Editing a file and confirming the add-file dialog do not check that the repository is cloned.

## Model

| member | source | states |
|---|---|---|
| Text.Trim | src/js/cli.js:103 | the result is a slice of the input with only white space cut off on either side, and it has no white space at either end |
| Text.TrimEmptyIffBlank | src/js/cli.js:103-105 | a line trims to the empty string exactly when every character is white space, so only such lines are skipped |
| Text.JoinSplit | src/js/cli.js:37 | joining the pieces of `split(sep)` with `sep` gives back the original text |
| Text.SplitJoin | src/js/cli.js:37 | splitting a join of separator-free pieces gives back those pieces |
| Text.PadEnd | src/js/commands.js:153 | the result keeps the text, is at least `n` long, and only spaces are added |
| Output.LinesOf | src/js/cli.js:25-85 | `printOutput` adds one output line per `'\n'`-separated piece; the other print calls add one line; `clearOutput` none |
| Output.OutputLinesRoundTrip | src/js/cli.js:36-45 | the texts of the lines `printOutput(text)` adds, joined by newlines, are `text` |
| Output.OutputSingleLine | src/js/cli.js:36-45 | text with no newline is printed as exactly one output line |
| Output.ApplyAppends | src/js/cli.js:25-78 | calls other than `clearOutput` only ever append to the terminal |
| Output.ApplyConcat | src/js/cli.js:25-85 | carrying out two runs of calls one after the other is carrying out their concatenation |
| Parser.ParseCommand | src/js/commands.js:53-84 | the character loop returns exactly `Tokens(input)`, and no token is empty |
| Parser.TokensNonEmpty | src/js/commands.js:70-72 | tokens are pushed only when non-empty, including the last one at the end of the line |
| Parser.RunConsistent | src/js/commands.js:63-68 | at every point of the loop a span is open exactly when an opening quote is remembered |
| Parser.NoQuotesIsSplit | src/js/commands.js:69-76 | a line without quotes gives the space-separated pieces with the empty ones dropped |
| Parser.InsideSpan | src/js/commands.js:66-76 | inside a quoted span every character except the closing quote is kept, spaces and the other quote kind included |
| Parser.QuotedSpan | src/js/commands.js:63-68 | a quoted span adds its body, without the quotes, to the current token, and closes again |
| Parser.Unterminated | src/js/commands.js:79-81 | a quote that is never closed puts the rest of the line into the last token |
| Store.SetFile | src/js/app.js:73-77 | `addFile` gives the name the new status, leaves every other name as it was, keeps names unique, and appends only a new name |
| Store.UpdateStatus | src/js/app.js:79-85 | `updateFileStatus` changes only an existing entry's status, in place, and does nothing for an unknown name |
| Store.RemoveEntry | src/js/app.js:87-91 | `removeFile` drops the name and keeps every other entry |
| Store.Restatus | src/js/commands.js:288-290 | updating each listed name gives it the status and leaves the other entries unchanged |
| Store.RestatusStep | src/js/commands.js:349-351 | updating one more name extends the `Restatus` of the names before it |
| Store.FilesByStatus | src/js/app.js:197-201 | a name is in the bucket exactly when some entry has that name and status |
| Store.BucketInTableOrder | src/js/app.js:197-201 | the bucket lists its names in table order: a name listed earlier sits earlier in the table |
| Store.BucketIffStatus | src/js/app.js:197-217 | with unique names a name is in a bucket exactly when its status is that bucket's |
| Store.BucketsDisjoint | src/js/app.js:203-217 | no name is in two buckets |
| Store.BucketsPartition | src/js/app.js:203-217 | the four buckets together hold every entry exactly once |
| Store.HasChangesIff | src/js/app.js:219-223 | there are changes exactly when some file is not committed, that is, when a staged, modified or untracked bucket is non-empty |
| Store.HasStagedChanges | src/js/app.js:225-227 | true exactly when some file is staged |
| Store.PushedCommits | src/js/app.js:244-246 | the first `pushedCommitCount` commits, or all of them when the count is too large |
| Store.UnpushedCommits | src/js/app.js:232-234 | the commits after the cursor; pushed followed by unpushed is the whole list |
| Store.HasUnpushedCommits | src/js/app.js:236-238 | true exactly when the cursor is before the end of the list |
| Store.LatestIsNewest | src/js/app.js:240-242 | after a commit is appended it is the latest, and there is a latest commit exactly when the list is non-empty |
| Store.WithBranch | src/js/app.js:118-127 | `addBranch` appends a name that is absent, changes nothing for one present, and keeps the list free of duplicates |
| Store.AddBranchIdempotent | src/js/app.js:122 | adding a branch twice is adding it once |
| Store.WithoutBranch | src/js/app.js:129-137 | `removeBranch` deletes the first occurrence only, and on a duplicate-free list it removes exactly that name |
| Store.MainIsRemovable | src/js/app.js:129-137 | `main` is removed like any other branch |
| Store.FindPr | src/js/app.js:175 | the first pull request carrying the id, or none |
| Store.FindPrSequential | src/js/app.js:158 | with ids 1, 2, 3, … id `k` sits at position `k - 1` |
| Store.NewPullRequestDefaults | src/js/app.js:157-166 | the new request is open and takes the draft's fields; an absent or empty description gives `""`, an absent or empty target gives `main`, absent commits give none |
| Store.StatusUpdateLookup | src/js/app.js:173-181 | looked up by id afterwards, the updated request has the new status and its other fields as before, and every other request is unchanged |
| Store.MergePr | src/js/app.js:183-192 | only an open request with the id changes, to merged with the merge time; ids are kept |
| Store.MergeTwice | src/js/app.js:186 | merging an already merged request changes nothing |
| Store.MergeOpen | src/js/app.js:183-192 | merging an open request with a valid id marks it merged at that time |
| Store.HashFor | src/js/app.js:251-258 | the hash is seven characters of `0-9a-f` |
| Store.GenerateHash | src/js/app.js:251-258 | the loop picks character `i` from draw `i`, giving a well-shaped hash |
| Store.InitialStateWellFormed | src/js/app.js:9-22 | the initial state meets the store's invariants and the push cursor bound |
| Store.GitStore.constructor | src/js/app.js:27 | the store starts from the saved state, else from the initial state |
| Store.GitStore.SetCloned | src/js/app.js:67-71 | only the cloned flag changes |
| Store.GitStore.AddFile | src/js/app.js:73-77 | the file table becomes `SetFile` of the old one; names stay unique |
| Store.GitStore.UpdateFileStatus | src/js/app.js:79-85 | the file table becomes `UpdateStatus` of the old one |
| Store.GitStore.RemoveFile | src/js/app.js:87-91 | the file table becomes `RemoveEntry` of the old one |
| Store.GitStore.AddCommit | src/js/app.js:93-104 | one commit with the drawn hash, message, time and a copy of the names is appended and returned |
| Store.GitStore.SetPushedCommitCount | src/js/app.js:106-110 | only the push cursor changes |
| Store.GitStore.ResetState | src/js/app.js:112-116 | the state becomes the initial state |
| Store.GitStore.AddBranch | src/js/app.js:118-127 | the branch list becomes `WithBranch` of the old one |
| Store.GitStore.RemoveBranch | src/js/app.js:129-137 | the branch list becomes `WithoutBranch` of the old one |
| Store.GitStore.SetCurrentBranch | src/js/app.js:139-143 | only the current branch changes |
| Store.GitStore.UndoLastCommit | src/js/app.js:145-151 | the last commit, if any, is dropped; files and the push cursor stay |
| Store.GitStore.AddPullRequest | src/js/app.js:153-171 | an open request with the next id and the defaulted fields is appended and returned |
| Store.GitStore.UpdatePullRequestStatus | src/js/app.js:173-181 | the request list becomes `SetPrStatus` of the old one |
| Store.GitStore.MergePullRequest | src/js/app.js:183-192 | the request list becomes `MergePr` of the old one |
| Commands.CmdHelp | src/js/commands.js:148-158 | prints the heading, one row per command in table order, and the closing hint |
| Commands.HelpColumns | src/js/commands.js:152-154 | every row is the usage padded to 30 columns, then the description, each at a fixed column |
| Commands.CmdGitClone | src/js/commands.js:168-201 | the handler's state and output are those of the clone step |
| Commands.CloneSucceeds | src/js/commands.js:183-200 | an accepted url marks the repository cloned and adds `README.md` as committed, touching nothing else |
| Commands.CloneRefusals | src/js/commands.js:169-186 | already cloned, no url or a rejected url: one error and no change |
| Commands.EmitSection | src/js/commands.js:224-255 | a section is printed only for a non-empty bucket, one line per file in order |
| Commands.CmdGitStatus | src/js/commands.js:203-261 | the handler prints exactly the status report of the state |
| Commands.StatusCleanIff | src/js/commands.js:257-260 | the report ends with "working tree clean" exactly when no file is staged, modified or untracked |
| Commands.StatusAhead | src/js/commands.js:216-222 | with unpushed commits the second line says how many |
| Commands.StatusListsEveryChange | src/js/commands.js:224-255 | every staged, modified or untracked file is listed under its own heading |
| Commands.SetEach | src/js/commands.js:288-290 | updating the files one by one gives `Restatus` of the table |
| Commands.CmdGitAdd | src/js/commands.js:263-315 | the handler's state and output are those of the add step |
| Commands.AddAllStagesExactly | src/js/commands.js:277-292 | `git add .` stages exactly the modified and untracked files and leaves the rest alone |
| Commands.AddAllIdempotent | src/js/commands.js:283-285 | right after `git add .`, another `git add .` says "Nothing to add." and changes nothing |
| Commands.AddOneIdempotent | src/js/commands.js:295-314 | adding one modified or untracked file stages it and only it; adding it again reports it staged and changes nothing |
| Commands.MessageArg | src/js/commands.js:324-331 | the message is the argument right after the first `-m`; there is none when no `-m` comes before the last argument |
| Commands.CmdGitCommit | src/js/commands.js:317-356 | the handler's state and output are those of the commit step |
| Commands.CommitChangesIff | src/js/commands.js:317-351 | a commit changes the state exactly when the repository is cloned, `-m` has a non-blank value and something is staged |
| Commands.CommitRecordsStaged | src/js/commands.js:338-351 | a commit appends one commit recording exactly the staged files with a well-shaped hash; staged files become committed, the others keep their status, nothing stays staged |
| Commands.CommitNeedsMessage | src/js/commands.js:324-336 | without `-m` and a value, or with a blank message, nothing changes |
| Commands.CommitNeedsStaged | src/js/commands.js:338-342 | with nothing staged, nothing changes |
| Commands.CmdGitPush | src/js/commands.js:358-386 | the handler's state and output are those of the push step |
| Commands.PushPublishes | src/js/commands.js:364-385 | a push moves the cursor to the end, so every commit is pushed, and names the first and last unpushed hashes |
| Commands.PushUpToDate | src/js/commands.js:366-369 | with nothing unpushed, a push prints "Everything up-to-date" and changes nothing |
| Commands.PushIdempotent | src/js/commands.js:366-369 | a push right after a push is "Everything up-to-date" and changes nothing |
| Commands.Reverse | src/js/commands.js:402 | the reversal, defined element by element from the end, puts element `n - 1 - i` of the input at position `i` |
| Commands.ReverseInvolutive | src/js/commands.js:402 | reversing twice gives the list back |
| Commands.CmdGitLog | src/js/commands.js:388-411 | the handler prints exactly the log of the state |
| Commands.LogNewestFirst | src/js/commands.js:401-410 | five lines per commit, and block `k` is the `k`-th newest commit |
| Commands.CmdGitReset | src/js/commands.js:413-442 | the handler's state and output are those of the reset step |
| Commands.UpdateStatusRestores | src/js/app.js:79-85 | setting a file back to its earlier status restores the table |
| Commands.ResetUndoesAdd | src/js/commands.js:433-441 | `git reset HEAD f` right after `git add f` of a modified file restores the state |
| Commands.ResetToModified | src/js/commands.js:438-439 | reset only ever moves a staged file to modified; commits and the cursor stay |
| Commands.ResetHeadAnyCase | src/js/commands.js:420 | any first argument that upper-cases to `HEAD` acts exactly as `HEAD` |
| Commands.ResetNeedsHead | src/js/commands.js:420-422 | after a clone, any other first argument is the usage error and changes nothing |
| Commands.ResetHeadExample | src/js/commands.js:420 | `git reset head f` and `git reset Head f` act as `git reset HEAD f` |
| Commands.Route | src/js/commands.js:90-142 | an empty line does nothing; a lone `git` is the usage error; the first word is unknown exactly when it is not help, clear or git; after `git`, the subcommand is unknown exactly when it is none of the seven |
| Commands.RouteIgnoresCase | src/js/commands.js:95-114 | the command word and the git subcommand are matched case-insensitively; arguments are passed unchanged |
| Commands.RouteExample | src/js/commands.js:95-121 | `GIT Status` is routed to status |
| Commands.ExecuteCommand | src/js/commands.js:90-142 | running a line changes the store and prints exactly as the model of `executeCommand` does, and keeps the store valid |
| Commands.ExecuteSpaces | src/js/commands.js:91-93 | a line of spaces does nothing at all |
| Commands.ExecuteReadOnly | src/js/commands.js:99-131 | help, clear, status, log and the error paths never change the store |
| Commands.ExecuteNeedsRepository | src/js/commands.js:204-207 | before a clone every git handler except clone only prints "not a git repository" |
| Commands.ExecuteUnknown | src/js/commands.js:132-141 | an unknown command or subcommand prints one error and the help hint, and changes nothing |
| Commands.CloneKeeps | src/js/commands.js:168-201 | clone keeps the invariants, the commits and the cursor bound |
| Commands.AddKeeps | src/js/commands.js:263-315 | add keeps the invariants, the commits and the cursor bound |
| Commands.CommitKeeps | src/js/commands.js:317-356 | commit keeps the invariants and only appends to the commits |
| Commands.PushKeeps | src/js/commands.js:358-386 | push keeps the invariants and leaves the cursor within the list |
| Commands.ResetKeeps | src/js/commands.js:413-442 | reset keeps the invariants, the commits and the cursor bound |
| Commands.ExecuteKeepsInvariants | src/js/commands.js:90-142 | every command keeps unique file names, only ever appends commits, and keeps the push cursor within the list |
| LocalFiles.HandleEditFile | src/js/local-files.js:109-121 | the handler's state and output are those of the edit step |
| LocalFiles.EditTransitions | src/js/local-files.js:112-120 | editing moves a committed or staged file to modified, touches no other file, and changes nothing for any other status or an unknown name |
| LocalFiles.EditThenAdd | src/js/local-files.js:115-116 | after editing a committed file, `git add` of it stages it |
| LocalFiles.DecideNewFile | src/js/local-files.js:148-166 | a file is created exactly for a trimmed, valid, new name; blank input, and only blank input, is ignored; an invalid name gets the invalid-name alert and an existing one the exists alert |
| LocalFiles.HandleAddFileClick | src/js/local-files.js:126-136 | before a clone: one error, dialog untouched; otherwise the dialog opens with an empty input |
| LocalFiles.HandleCancelAddFile | src/js/local-files.js:141-143 | the dialog is hidden and its input kept |
| LocalFiles.HandleConfirmAddFile | src/js/local-files.js:148-178 | blank: nothing; bad or existing name: the alert, no change; otherwise the file is added as untracked, the dialog closes and the two lines and a blank line are printed |
| LocalFiles.CreateAppends | src/js/local-files.js:163-169 | a created file is appended as untracked; no entry is overwritten and names stay unique |
| LocalFiles.BadNamesRejected | src/js/local-files.js:156-158 | a name with `/ \ : * ? " < > \|` or a leading dot is refused with the alert |
| LocalFiles.BlankIgnored | src/js/local-files.js:149-153 | all-white-space input is ignored |
| LocalFiles.CreatedNameTrimmed | src/js/local-files.js:149 | the created name has no white space at either end |
| LocalFiles.CreateThenAdd | src/js/local-files.js:169 | a created file can be staged at once by `git add` with its name as the one argument |
| LocalFiles.SpacedNameCreated | src/js/local-files.js:155-156 | a name with a space inside passes the check and is created |
| LocalFiles.NoSpacesDecision | src/js/local-files.js:155-156 | under the rule with spaces refused, a trimmed name with a space gets the invalid-name alert, and every other input is decided as the code decides it |
| Tutorial.OnlyReadmeShape | src/js/tutorial.js:76 | the "just cloned" test holds exactly for the table holding only a committed `README.md` |
| Tutorial.DetectCharacterization | src/js/tutorial.js:62-102 | step 1 exactly before a clone; "create a file" exactly for the README-only table; then untracked, modified, staged and unpushed in that order; "push" exactly when only unpushed commits are pending and "complete" exactly when nothing is |
| Tutorial.CopyButtonIffGitCommand | src/js/tutorial.js:10-53 | the copy button is shown exactly for the steps whose command starts with `git ` |
| Tutorial.CloneGivesReadme | src/js/commands.js:183-198 | cloning the suggested url from the initial state gives the README-only table |
| Tutorial.ReadmeCommitHidesPush | src/js/tutorial.js:76-78 | after clone, editing `README.md`, `git add .` and a commit, one commit is unpushed yet the guide says "create a file" |
| Tutorial.IntendedShowsPush | src/js/tutorial.js:76-98 | the corrected classifier asks for a push whenever nothing is pending except commits, and differs from the original only there |
| Tutorial.RenderTutorial | src/js/tutorial.js:113-133 | the rendered guide shows the text of the current step as `detectCurrentStep` chooses it; it has a copy button exactly when its command is a git command line, and before a clone it offers the clone command with the button |
| StatusPanel.ChooseIndicator | src/js/git-status-panel.js:40-58 | the step-by-step reassignment picks the indicator defined by precedence |
| StatusPanel.IndicatorPrecedence | src/js/git-status-panel.js:40-58 | unpushed commits decide the indicator; then staged files win over other changes; "Clean" exactly when every count is zero |
| StatusPanel.CleanStatIff | src/js/git-status-panel.js:67-73 | the clean stat appears exactly when all four counts are zero, and then alone; one stat per non-zero count |
| StatusPanel.CommitsLabelPlural | src/js/git-status-panel.js:75 | "commit" is singular exactly for one commit |
| StatusPanel.PanelOf | src/js/git-status-panel.js:18-78 | before a clone, the not-a-repository panel; otherwise the branch and the commit-count label |
| StatusPanel.PanelCleanIff | src/js/git-status-panel.js:40-72 | the panel reads "Clean" and shows the clean stat exactly when every file is committed and every commit pushed; unpushed commits read "N to push" |
| GitHubView.CollectPushedFiles | src/js/github-ui.js:84-88 | the nested loops build the pushed-file list |
| GitHubView.PushedFilesExactly | src/js/github-ui.js:84-88 | the list holds each name some pushed commit lists, once, and no other |
| GitHubView.LastIndexWith | src/js/github-ui.js:93-100 | the position of the newest commit listing the name; none exactly when no commit lists it |
| GitHubView.FindLastCommit | src/js/github-ui.js:93-100 | the backward scan with `break` finds that position |
| GitHubView.ListedFilesHaveCommit | src/js/github-ui.js:102-103 | every listed file has a newest commit, so the empty fallbacks never show |
| GitHubView.TimeBuckets | src/js/github-ui.js:137-154 | under a minute "just now", then whole minutes, hours or days by the elapsed milliseconds |
| GitHubView.AgoPlural | src/js/github-ui.js:148-152 | the unit is plural exactly when the count is above one |
| GitHubView.RenderGitHubUI | src/js/github-ui.js:19-34 | the empty page exactly when nothing is pushed; otherwise the last pushed commit in the header and one row per pushed file with its newest commit |
| GitHubView.ListShowsNewest | src/js/github-ui.js:92-103 | a file listed by any pushed commit is shown, with the message of its newest pushed commit |
| Cli.Terminal.constructor | src/js/cli.js:15-16 | empty history, cursor at -1 |
| Cli.Terminal.PrintOutputText | src/js/cli.js:36-45 | one output line per `'\n'`-separated piece is appended |
| Cli.Terminal.Perform | src/js/cli.js:25-85 | the terminal's lines become the result of carrying out the calls in order |
| Cli.Terminal.HandleEnter | src/js/cli.js:102-124 | a non-blank trimmed line is recorded, echoed, run through `executeCommand` and followed by a blank line; a blank line changes nothing; the input is cleared |
| Cli.Terminal.HandleArrowUp | src/js/cli.js:127-133 | the cursor steps back while past the first entry, recalling it |
| Cli.Terminal.HandleArrowDown | src/js/cli.js:136-145 | the cursor steps forward while before the last entry, else it goes past the end and clears the input |
| Cli.Terminal.HandleInput | src/js/cli.js:101-146 | each key reaches its own handler; other keys change nothing |
| Cli.EnterKeepsIndex | src/js/cli.js:105-108 | Enter keeps the cursor within -1 to the history length |
| Cli.ArrowsKeepIndex | src/js/cli.js:127-145 | both arrow keys keep the cursor within -1 to the history length |
| Cli.RecallIsValid | src/js/cli.js:127-145 | a recalled input is always the history entry at a valid cursor; past the end the input is empty |
| Cli.EnterRecords | src/js/cli.js:103-123 | Enter records the trimmed line exactly when it is not blank and always empties the input |
| Cli.UpRecallsLast | src/js/cli.js:105-133 | after running a line, ArrowUp recalls it and ArrowDown clears the box again |
| Cli.EnterTranscript | src/js/cli.js:105-120 | unless the command clears the screen, earlier lines stay, the line is echoed next, and a blank line ends the output |

## Left out

- The DOM is not modelled: markup, CSS classes beyond the ones the panels choose, focus, scrolling, event wiring and `escapeHtml`.
- `localStorage` persistence is not modelled: `saveState`, `loadState` and `clearState`. The store's constructor takes the loaded state as a parameter.
- The observer list (`onStateChange`, `notifyStateChange`) is not modelled, nor the re-rendering it triggers.
- `Math.random`, `new Date()` and `toLocaleString` are parameters (`Host`, `ageMs`), not computed:
  - timestamps are opaque strings;
  - `formatTimeAgo` takes the elapsed milliseconds.
- `Text.Lower` and `Text.Upper` map only ASCII letters. This is exact for the command words, `HEAD` and the tests on them, but not for other scripts.
- The JavaScript `||` fallbacks are not modelled where `branches` or `pullRequests` is missing from a saved state. The model's state always has both lists.
- Object keys are modelled as an insertion-ordered list. Names such as `__proto__` and numeric-looking keys, which JavaScript objects order or treat specially, are not distinguished. Nor are names inherited from `Object.prototype` such as `constructor` or `toString`: `files[name]` is truthy for them in the source (src/js/commands.js:297, src/js/commands.js:428, src/js/local-files.js:112, src/js/local-files.js:163), so `git add constructor` or creating a file named `toString` behaves there as if the file existed, while the model treats such a name as absent.
- The clipboard is not modelled: `copyToClipboard`, `copyTutorialCommand` and the paste into the terminal.
- `src/js/scenarios.js` and `src/js/config.example.js` are not part of this model.
- `GitHubView.RenderGitHubUI`: its rows are stated in the order files first appear in pushed commits. That is the iteration order of the source's `Set`. The header text `owner / name` is not modelled.
- `Cli.Terminal.HandleEnter`: it assumes `executeCommand` is defined, so the source's `typeof` guard is not modelled.
- `Cli.Terminal.HandleInput`: `preventDefault` is not modelled.

## Findings

| source | as written | input that shows it | evidently intended | confidence | as-written member | corrected member |
|---|---|---|---|---|---|---|
| src/js/tutorial.js:76-78 | the "create a file" step is chosen when `README.md` is the only file and is committed, whatever the commits | clone, click Edit on `README.md`, `git add .`, `git commit -m "x"`: one unpushed commit, and the guide still says "Step 2: Create a file" | that step only while nothing waits to be pushed, so the guide asks for `git push` | medium, not executed | Tutorial.ReadmeCommitHidesPush | Tutorial.IntendedShowsPush |
| src/js/local-files.js:155-156 | the comment beside the check says spaces are refused, but the pattern `[^\/\\:*?"<>\|]+` lets a space through | type `my file` in the add-file dialog: the file is created, and `git add my file` then splits it into two arguments | spaces refused along with the special characters | low, not executed | LocalFiles.SpacedNameCreated | LocalFiles.NoSpacesDecision |
