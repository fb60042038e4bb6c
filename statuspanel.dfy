/** The git status panel: the indicator (icon, style class and label)
    chosen from the counts of staged, modified and untracked files and of
    unpushed commits, the row of stats, and the commit-count label. */
module StatusPanel {
  import opened Text
  import opened Store

  const CleanIcon: string := "\U{2713}"
  const StagedIcon: string := "\U{25CF}"
  const ChangedIcon: string := "\U{25CB}"
  const UnpushedIcon: string := "\U{2191}"
  const ModifiedStatIcon: string := "\U{25D0}"

  datatype Indicator = Indicator(icon: string, cls: string, text: string)

  /** The indicator by precedence: unpushed commits first, then staged
      files, then any other change, else clean. */
  function IndicatorFor(staged: nat, modified: nat, untracked: nat, unpushed: nat): Indicator {
    if unpushed > 0 then Indicator(UnpushedIcon, "git-status--unpushed", NatToString(unpushed) + " to push")
    else if staged > 0 then Indicator(StagedIcon, "git-status--staged", "Ready to commit")
    else if modified > 0 || untracked > 0 then Indicator(ChangedIcon, "git-status--modified", "Changes detected")
    else Indicator(CleanIcon, "git-status--clean", "Clean")
  }

  /** The indicator chosen as the panel does it: start clean, overwrite for
      staged or changed files, then overwrite again for unpushed commits. */
  method ChooseIndicator(staged: nat, modified: nat, untracked: nat, unpushed: nat) returns (r: Indicator)
    ensures r == IndicatorFor(staged, modified, untracked, unpushed)
  {
    var statusIcon := CleanIcon;
    var statusClass := "git-status--clean";
    var statusText := "Clean";
    if staged > 0 {
      statusIcon := StagedIcon;
      statusClass := "git-status--staged";
      statusText := "Ready to commit";
    } else if modified > 0 || untracked > 0 {
      statusIcon := ChangedIcon;
      statusClass := "git-status--modified";
      statusText := "Changes detected";
    }
    if unpushed > 0 {
      statusIcon := UnpushedIcon;
      statusClass := "git-status--unpushed";
      statusText := NatToString(unpushed) + " to push";
    }
    r := Indicator(statusIcon, statusClass, statusText);
  }

  /** Unpushed commits decide the indicator whatever the files are; without
      them staged files win over other changes; "Clean" exactly when every
      count is zero. */
  lemma IndicatorPrecedence(staged: nat, modified: nat, untracked: nat, unpushed: nat)
    ensures var r := IndicatorFor(staged, modified, untracked, unpushed);
      && (unpushed > 0 ==> r == IndicatorFor(0, 0, 0, unpushed) && r.icon == UnpushedIcon)
      && (unpushed == 0 && staged > 0 ==> r.text == "Ready to commit")
      && (unpushed == 0 && staged == 0 && modified + untracked > 0 ==> r.text == "Changes detected")
      && (r.text == "Clean" <==> staged == 0 && modified == 0 && untracked == 0 && unpushed == 0)
  {
    if unpushed > 0 {
      var t := NatToString(unpushed) + " to push";
      assert t[|t| - 1] == 'h';
    }
  }

  /** One entry of the stats row; only the file stats carry a tooltip. */
  datatype Stat = Stat(cls: string, text: string, title: Option<string>)

  function CountStat(n: nat, cls: string, icon: string, word: string, title: Option<string>): seq<Stat> {
    if n > 0 then [Stat(cls, icon + " " + NatToString(n) + " " + word, title)] else []
  }

  /** The stats row: one stat per non-empty bucket, one for unpushed
      commits, and the clean stat, carrying the indicator's label, when all
      four counts are zero. */
  function Stats(staged: seq<string>, modified: seq<string>, untracked: seq<string>, unpushed: nat, statusText: string): seq<Stat> {
    CountStat(|staged|, "git-status__stat--staged", StagedIcon, "staged", Some("Staged: " + JoinText(staged, ", ")))
    + CountStat(|modified|, "git-status__stat--modified", ModifiedStatIcon, "modified", Some("Modified: " + JoinText(modified, ", ")))
    + CountStat(|untracked|, "git-status__stat--untracked", "?", "untracked", Some("Untracked: " + JoinText(untracked, ", ")))
    + CountStat(unpushed, "git-status__stat--unpushed", UnpushedIcon, "unpushed", None)
    + (if |staged| == 0 && |modified| == 0 && |untracked| == 0 && unpushed == 0
       then [Stat("git-status__stat--clean", CleanIcon + " " + statusText, None)] else [])
  }

  predicate HasCleanStat(stats: seq<Stat>) {
    exists i :: 0 <= i < |stats| && stats[i].cls == "git-status__stat--clean"
  }

  /** The clean stat is shown exactly when nothing is staged, modified,
      untracked or unpushed, and then it is the only stat. One stat is shown
      per non-zero count. */
  lemma CleanStatIff(staged: seq<string>, modified: seq<string>, untracked: seq<string>, unpushed: nat, statusText: string)
    ensures var stats := Stats(staged, modified, untracked, unpushed, statusText);
      && (HasCleanStat(stats) <==> |staged| == 0 && |modified| == 0 && |untracked| == 0 && unpushed == 0)
      && (HasCleanStat(stats) ==> stats == [Stat("git-status__stat--clean", CleanIcon + " " + statusText, None)])
      && |stats| == (if |staged| > 0 then 1 else 0) + (if |modified| > 0 then 1 else 0)
           + (if |untracked| > 0 then 1 else 0) + (if unpushed > 0 then 1 else 0)
           + (if HasCleanStat(stats) then 1 else 0)
  {
    var stats := Stats(staged, modified, untracked, unpushed, statusText);
    if |staged| == 0 && |modified| == 0 && |untracked| == 0 && unpushed == 0 {
      assert stats[0].cls == "git-status__stat--clean";
    } else {
      var files := CountStat(|staged|, "git-status__stat--staged", StagedIcon, "staged", Some("Staged: " + JoinText(staged, ", ")))
        + CountStat(|modified|, "git-status__stat--modified", ModifiedStatIcon, "modified", Some("Modified: " + JoinText(modified, ", ")))
        + CountStat(|untracked|, "git-status__stat--untracked", "?", "untracked", Some("Untracked: " + JoinText(untracked, ", ")))
        + CountStat(unpushed, "git-status__stat--unpushed", UnpushedIcon, "unpushed", None);
      assert stats == files;
      assert forall i :: 0 <= i < |files| ==> files[i].cls != "git-status__stat--clean";
    }
  }

  /** `${n} commit${n !== 1 ? 's' : ''}`. */
  function CommitsLabel(n: nat): string {
    NatToString(n) + " commit" + (if n != 1 then "s" else "")
  }

  /** The singular is used for exactly one commit. */
  lemma CommitsLabelPlural(n: nat)
    ensures CommitsLabel(n) == NatToString(n) + " commit" <==> n == 1
    ensures n != 1 ==> CommitsLabel(n) == NatToString(n) + " commits"
  {
    if n != 1 {
      assert |CommitsLabel(n)| == |NatToString(n) + " commit"| + 1;
    }
  }

  datatype Panel =
    | NotARepository(message: string, hint: string)
    | RepoPanel(branch: string, indicator: Indicator, stats: seq<Stat>, commitsLabel: string)

  /** The panel's content for a state. */
  function PanelOf(s: State): (p: Panel)
    ensures !s.repo.isCloned <==> p.NotARepository?
    ensures p.NotARepository? ==> p == NotARepository("Not a git repository", "Run git clone to start")
    ensures p.RepoPanel? ==> p.branch == s.repo.currentBranch && p.commitsLabel == CommitsLabel(|s.commits|)
  {
    if !s.repo.isCloned then NotARepository("Not a git repository", "Run git clone to start")
    else
      var staged := StagedFiles(s.files);
      var modified := ModifiedFiles(s.files);
      var untracked := UntrackedFiles(s.files);
      var unpushed := |UnpushedCommits(s.commits, s.pushedCommitCount)|;
      var indicator := IndicatorFor(|staged|, |modified|, |untracked|, unpushed);
      RepoPanel(s.repo.currentBranch, indicator, Stats(staged, modified, untracked, unpushed, indicator.text),
                CommitsLabel(|s.commits|))
  }

  /** On a cloned repository the panel reads "Clean", and shows the clean
      stat "✓ Clean", exactly when every file is committed and every commit
      is pushed; any unpushed commit makes it read "N to push". */
  lemma PanelCleanIff(s: State)
    requires s.repo.isCloned
    ensures var p := PanelOf(s);
      && (p.indicator.text == "Clean" <==> !HasChanges(s.files) && !HasUnpushedCommits(s.commits, s.pushedCommitCount))
      && (HasCleanStat(p.stats) <==> p.indicator.text == "Clean")
      && (HasCleanStat(p.stats) ==> p.stats == [Stat("git-status__stat--clean", CleanIcon + " " + "Clean", None)])
      && (HasUnpushedCommits(s.commits, s.pushedCommitCount) ==>
            p.indicator.text == NatToString(|UnpushedCommits(s.commits, s.pushedCommitCount)|) + " to push")
  {
    var staged := StagedFiles(s.files);
    var modified := ModifiedFiles(s.files);
    var untracked := UntrackedFiles(s.files);
    var unpushed := |UnpushedCommits(s.commits, s.pushedCommitCount)|;
    var indicator := IndicatorFor(|staged|, |modified|, |untracked|, unpushed);
    IndicatorPrecedence(|staged|, |modified|, |untracked|, unpushed);
    CleanStatIff(staged, modified, untracked, unpushed, indicator.text);
    HasChangesIff(s.files);
    BucketsPartition(s.files);
  }
}
