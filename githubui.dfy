/** The remote repository view: an empty-repository page until something
    is pushed, then the list of every file any pushed commit touched, each
    with the message and age of the newest pushed commit that lists it,
    under a header naming the last pushed commit. */
module GitHubView {
  import opened Text
  import opened Store

  // ---------------------------------------------------------------------
  // The set of pushed files

  /** `names.forEach(f => set.add(f))` on a set whose items are kept in
      insertion order. */
  function AddNames(acc: seq<string>, names: seq<string>): seq<string> {
    if names == [] then acc
    else
      var before := AddNames(acc, names[..|names| - 1]);
      if names[|names| - 1] in before then before else before + [names[|names| - 1]]
  }

  /** The pushed-file set after visiting every commit in order. */
  function PushedFileList(commits: seq<Commit>): seq<string> {
    if commits == [] then []
    else AddNames(PushedFileList(commits[..|commits| - 1]), commits[|commits| - 1].files)
  }

  predicate TouchedBy(commits: seq<Commit>, name: string) {
    exists i :: 0 <= i < |commits| && name in commits[i].files
  }

  lemma {:induction false} AddNamesSpec(acc: seq<string>, names: seq<string>)
    requires NoDuplicates(acc)
    ensures NoDuplicates(AddNames(acc, names))
    ensures forall n :: n in AddNames(acc, names) <==> n in acc || n in names
  {
    if names != [] {
      var init := names[..|names| - 1];
      AddNamesSpec(acc, init);
      assert names == init + [names[|names| - 1]];
    }
  }

  /** The listed files are exactly the names that some pushed commit
      lists, each once. */
  lemma {:induction false} PushedFilesExactly(commits: seq<Commit>)
    ensures NoDuplicates(PushedFileList(commits))
    ensures forall n :: n in PushedFileList(commits) <==> TouchedBy(commits, n)
  {
    if commits != [] {
      var init := commits[..|commits| - 1];
      var last := commits[|commits| - 1];
      PushedFilesExactly(init);
      AddNamesSpec(PushedFileList(init), last.files);
      forall n ensures n in PushedFileList(commits) <==> TouchedBy(commits, n) {
        if TouchedBy(commits, n) {
          var i :| 0 <= i < |commits| && n in commits[i].files;
          if i < |commits| - 1 {
            assert init[i] == commits[i];
          }
        }
        if TouchedBy(init, n) {
          var i :| 0 <= i < |init| && n in init[i].files;
          assert commits[i] == init[i];
        }
      }
    }
  }

  /** The pushed-file set built as the view does, with two nested
      `forEach` loops. */
  method CollectPushedFiles(pushed: seq<Commit>) returns (files: seq<string>)
    ensures files == PushedFileList(pushed)
  {
    files := [];
    for i := 0 to |pushed|
      invariant files == PushedFileList(pushed[..i])
    {
      var names := pushed[i].files;
      ghost var before := files;
      for j := 0 to |names|
        invariant files == AddNames(before, names[..j])
      {
        if names[j] !in files {
          files := files + [names[j]];
        }
        assert names[..j + 1][..j] == names[..j];
      }
      assert names[..|names|] == names;
      assert pushed[..i + 1][..i] == pushed[..i];
    }
    assert pushed[..|pushed|] == pushed;
  }

  // ---------------------------------------------------------------------
  // The newest commit of a file

  /** The position of the newest commit that lists `name`, if any. */
  function LastIndexWith(commits: seq<Commit>, name: string): (r: Option<nat>)
    ensures r.Some? ==> r.value < |commits| && name in commits[r.value].files
    ensures r.Some? ==> forall k :: r.value < k < |commits| ==> name !in commits[k].files
    ensures r.None? <==> !TouchedBy(commits, name)
  {
    if commits == [] then None
    else if name in commits[|commits| - 1].files then Some(|commits| - 1)
    else
      var r := LastIndexWith(commits[..|commits| - 1], name);
      assert forall k :: 0 <= k < |commits| - 1 ==> commits[..|commits| - 1][k] == commits[k];
      r
  }

  /** The backward scan with `break` that finds a file's newest commit. */
  method FindLastCommit(pushed: seq<Commit>, name: string) returns (found: Option<nat>)
    ensures found == LastIndexWith(pushed, name)
  {
    found := None;
    var i := |pushed| - 1;
    while i >= 0
      invariant -1 <= i < |pushed|
      invariant LastIndexWith(pushed, name) == LastIndexWith(pushed[..i + 1], name)
      decreases i + 1
    {
      if name in pushed[i].files {
        found := Some(i);
        assert pushed[..i + 1][i] == pushed[i];
        break;
      }
      assert pushed[..i + 1][..i] == pushed[..i];
      i := i - 1;
    }
    if found.None? {
      assert pushed[..0] == [];
    }
  }

  /** Every listed file has a newest pushed commit, so the empty fallbacks
      for its message and age never show. */
  lemma ListedFilesHaveCommit(commits: seq<Commit>, name: string)
    requires name in PushedFileList(commits)
    ensures LastIndexWith(commits, name).Some?
  {
    PushedFilesExactly(commits);
  }

  // ---------------------------------------------------------------------
  // Relative time

  function Ago(n: nat, unit: string): string {
    NatToString(n) + " " + unit + (if n > 1 then "s" else "") + " ago"
  }

  /** `formatTimeAgo`, given the elapsed milliseconds; each step is a
      `Math.floor` of a positive divisor, which Dafny's `/` computes. */
  function FormatTimeAgo(diffMs: int): string {
    var diffSec := diffMs / 1000;
    var diffMin := diffSec / 60;
    var diffHour := diffMin / 60;
    var diffDay := diffHour / 24;
    if diffSec < 60 then "just now"
    else if diffMin < 60 then Ago(diffMin, "minute")
    else if diffHour < 24 then Ago(diffHour, "hour")
    else Ago(diffDay, "day")
  }

  /** Flooring by seconds, then minutes, hours and days, is flooring once
      by the whole unit. */
  lemma FloorSteps(ms: int)
    ensures (ms / 1000) / 60 == ms / 60000
    ensures ((ms / 1000) / 60) / 60 == ms / 3600000
    ensures (((ms / 1000) / 60) / 60) / 24 == ms / 86400000
  {
  }

  /** The buckets in milliseconds: under a minute "just now", under an
      hour whole minutes, under a day whole hours, else whole days. */
  lemma TimeBuckets(ms: int)
    ensures ms < 60000 ==> FormatTimeAgo(ms) == "just now"
    ensures 60000 <= ms < 3600000 ==> FormatTimeAgo(ms) == Ago(ms / 60000, "minute")
    ensures 3600000 <= ms < 86400000 ==> FormatTimeAgo(ms) == Ago(ms / 3600000, "hour")
    ensures ms >= 86400000 ==> FormatTimeAgo(ms) == Ago(ms / 86400000, "day")
  {
    FloorSteps(ms);
  }

  /** The unit is plural exactly when the count is above one. */
  lemma AgoPlural(n: nat, unit: string)
    ensures Ago(n, unit) == NatToString(n) + " " + unit + " ago" <==> n <= 1
    ensures n > 1 ==> Ago(n, unit) == NatToString(n) + " " + unit + "s ago"
  {
    if n > 1 {
      assert |Ago(n, unit)| == |NatToString(n) + " " + unit + " ago"| + 1;
      assert Ago(n, unit) == NatToString(n) + " " + unit + "s" + " ago";
    }
  }

  // ---------------------------------------------------------------------
  // The view

  datatype FileRow = FileRow(name: string, message: string, time: string)

  datatype RemoteView =
    | EmptyRepo(remoteUrl: string, repoName: string)
    | FileList(headHash: string, headMessage: string, rows: seq<FileRow>)

  /** The row of one listed file; `ageMs` gives the elapsed time since a
      commit's timestamp. */
  function RowFor(pushed: seq<Commit>, name: string, ageMs: string -> int): FileRow {
    match LastIndexWith(pushed, name)
    case None => FileRow(name, "", "")
    case Some(i) => FileRow(name, pushed[i].message, FormatTimeAgo(ageMs(pushed[i].timestamp)))
  }

  /** `renderGitHubUI()` with `renderEmptyRepo()` / `renderFileList()`. */
  method RenderGitHubUI(s: State, ageMs: string -> int) returns (v: RemoteView)
    ensures var pushed := PushedCommits(s.commits, s.pushedCommitCount);
      && (v.EmptyRepo? <==> pushed == [])
      && (v.EmptyRepo? ==> v == EmptyRepo(s.repo.remoteUrl, s.repo.name))
      && (v.FileList? ==>
            && v.headHash == pushed[|pushed| - 1].hash && v.headMessage == pushed[|pushed| - 1].message
            && |v.rows| == |PushedFileList(pushed)|
            && forall k :: 0 <= k < |v.rows| ==> v.rows[k] == RowFor(pushed, PushedFileList(pushed)[k], ageMs))
  {
    var pushed := PushedCommits(s.commits, s.pushedCommitCount);
    if |pushed| == 0 {
      return EmptyRepo(s.repo.remoteUrl, s.repo.name);
    }
    var latest := pushed[|pushed| - 1];
    var files := CollectPushedFiles(pushed);
    var rows: seq<FileRow> := [];
    for k := 0 to |files|
      invariant |rows| == k
      invariant forall m :: 0 <= m < k ==> rows[m] == RowFor(pushed, files[m], ageMs)
    {
      var found := FindLastCommit(pushed, files[k]);
      var message := if found.Some? then pushed[found.value].message else "";
      var time := if found.Some? then FormatTimeAgo(ageMs(pushed[found.value].timestamp)) else "";
      rows := rows + [FileRow(files[k], message, time)];
    }
    v := FileList(latest.hash, latest.message, rows);
  }

  /** Once something is pushed, the list names every file of every pushed
      commit, once each, with its newest pushed commit's message. */
  lemma ListShowsNewest(pushed: seq<Commit>, name: string, ageMs: string -> int)
    requires TouchedBy(pushed, name)
    ensures name in PushedFileList(pushed)
    ensures var i := LastIndexWith(pushed, name).value;
      && RowFor(pushed, name, ageMs).message == pushed[i].message
      && forall k :: i < k < |pushed| ==> name !in pushed[k].files
  {
    PushedFilesExactly(pushed);
  }
}
