/** The repository state store of the simulated-git teaching app: one
    in-memory record of repository metadata, an insertion-ordered file
    table, the commit list, the push cursor, the branch list and the
    pull-request list, with its mutators and derived views. */
module Store {
  import opened Text

  datatype Option<T> = None | Some(value: T)

  datatype FileStatus = Untracked | Modified | Staged | Committed

  /** One entry of the file table; the table keeps insertion order, as
      `Object.entries` does for string keys. */
  datatype FileEntry = FileEntry(name: string, status: FileStatus)

  type FileTable = seq<FileEntry>

  datatype Commit = Commit(hash: string, message: string, timestamp: string, files: seq<string>)

  datatype PrStatus = Open | Merged

  datatype PullRequest = PullRequest(
    id: nat, title: string, description: string, sourceBranch: string, targetBranch: string,
    status: PrStatus, createdAt: string, mergedAt: Option<string>, commits: seq<string>)

  /** What a caller hands to `addPullRequest`; absent fields are `None`. */
  datatype PrDraft = PrDraft(
    title: string, description: Option<string>, sourceBranch: string,
    targetBranch: Option<string>, commits: Option<seq<string>>)

  datatype Repo = Repo(name: string, owner: string, isCloned: bool, currentBranch: string, remoteUrl: string)

  /** The whole observable state, as one value. */
  datatype State = State(
    repo: Repo, files: FileTable, commits: seq<Commit>, pushedCommitCount: nat,
    branches: seq<string>, pullRequests: seq<PullRequest>)

  const InitialState: State :=
    State(Repo("my-project", "user", false, "main", "https://github.com/user/my-project.git"),
          [], [], 0, ["main"], [])

  predicate NoDuplicates<T(==)>(s: seq<T>) {
    forall i, j :: 0 <= i < j < |s| ==> s[i] != s[j]
  }

  predicate UniqueNames(files: FileTable) {
    forall i, j :: 0 <= i < j < |files| ==> files[i].name != files[j].name
  }

  /** Pull-request ids are 1, 2, 3, ... in list order. */
  predicate SequentialIds(prs: seq<PullRequest>) {
    forall i :: 0 <= i < |prs| ==> prs[i].id == i + 1
  }

  /** What every mutator keeps: one entry per file name, no branch twice,
      pull-request ids equal to their position plus one. */
  predicate WellFormed(s: State) {
    UniqueNames(s.files) && NoDuplicates(s.branches) && SequentialIds(s.pullRequests)
  }

  // ---------------------------------------------------------------------
  // The file table

  /** The position of `name` in the table (`state.files[name]`). */
  function Find(files: FileTable, name: string): (r: Option<nat>)
    ensures r.Some? ==> r.value < |files| && files[r.value].name == name
    ensures r.Some? ==> forall j :: 0 <= j < r.value ==> files[j].name != name
    ensures r.None? <==> forall j :: 0 <= j < |files| ==> files[j].name != name
  {
    if |files| == 0 then None
    else if files[0].name == name then Some(0)
    else match Find(files[1..], name)
      case None => None
      case Some(k) => Some(k + 1)
  }

  function Lookup(files: FileTable, name: string): Option<FileStatus> {
    match Find(files, name)
    case None => None
    case Some(i) => Some(files[i].status)
  }

  function Names(files: FileTable): (r: seq<string>)
    ensures |r| == |files| && forall i :: 0 <= i < |files| ==> r[i] == files[i].name
  {
    seq(|files|, i requires 0 <= i < |files| => files[i].name)
  }

  predicate SameNames(a: FileTable, b: FileTable) {
    |a| == |b| && forall i :: 0 <= i < |a| ==> a[i].name == b[i].name
  }

  /** Tables with the same names in the same order place every name alike. */
  lemma FindSameNames(a: FileTable, b: FileTable, name: string)
    requires SameNames(a, b)
    ensures Find(a, name) == Find(b, name)
  {
    match Find(a, name)
    case None =>
    case Some(i) =>
      match Find(b, name)
      case None =>
      case Some(k) =>
        assert a[i].name == b[i].name && a[k].name == b[k].name;
  }

  lemma FindAppend(files: FileTable, e: FileEntry, name: string)
    requires name != e.name
    ensures Find(files + [e], name) == Find(files, name)
  {
    var t := files + [e];
    assert forall j :: 0 <= j < |files| ==> t[j] == files[j];
    assert t[|files|] == e;
  }

  lemma FindSameNamesAll(a: FileTable, b: FileTable)
    requires SameNames(a, b)
    ensures forall n :: Find(a, n) == Find(b, n)
  {
    forall n ensures Find(a, n) == Find(b, n) { FindSameNames(a, b, n); }
  }

  lemma FindAppendAll(files: FileTable, e: FileEntry)
    ensures forall n :: n != e.name ==> Find(files + [e], n) == Find(files, n)
  {
    forall n | n != e.name ensures Find(files + [e], n) == Find(files, n) { FindAppend(files, e, n); }
  }

  /** Deleting position `i` leaves every other name where `Find` can see it. */
  lemma RemoveAtLookup(files: FileTable, i: nat)
    requires UniqueNames(files) && i < |files|
    ensures forall n :: n != files[i].name ==>
      Lookup(files[..i] + files[i + 1..], n) == Lookup(files, n)
  {
    var r := files[..i] + files[i + 1..];
    assert forall j :: 0 <= j < |r| ==> r[j] == (if j < i then files[j] else files[j + 1]);
    forall n | n != files[i].name ensures Lookup(r, n) == Lookup(files, n) {
      match Find(files, n)
      case None =>
      case Some(k) =>
        var k' := if k < i then k else k - 1;
        assert r[k'] == files[k];
        assert Find(r, n).Some?;
    }
  }

  lemma FindUnique(files: FileTable, i: nat)
    requires UniqueNames(files) && i < |files|
    ensures Find(files, files[i].name) == Some(i)
  {
  }

  /** `addFile(name, status)`: overwrite the entry in place, or append a new one. */
  function SetFile(files: FileTable, name: string, status: FileStatus): (r: FileTable)
    ensures Lookup(r, name) == Some(status)
    ensures forall n :: n != name ==> Lookup(r, n) == Lookup(files, n)
    ensures UniqueNames(files) ==> UniqueNames(r)
    ensures Find(files, name).Some? ==> SameNames(r, files)
    ensures Find(files, name).None? ==> r == files + [FileEntry(name, status)]
  {
    match Find(files, name)
    case Some(i) =>
      var r := files[i := FileEntry(name, status)];
      FindSameNamesAll(r, files);
      r
    case None =>
      var r := files + [FileEntry(name, status)];
      FindAppendAll(files, FileEntry(name, status));
      assert forall j :: 0 <= j < |files| ==> r[j] == files[j] && r[j].name != name;
      assert r[|files|].name == name;
      assert Find(r, name) == Some(|files|);
      r
  }

  /** `updateFileStatus(name, status)`: change the status of an existing
      entry; an unknown name leaves the table as it is. */
  function UpdateStatus(files: FileTable, name: string, status: FileStatus): (r: FileTable)
    ensures SameNames(r, files)
    ensures Lookup(files, name).None? ==> r == files
    ensures Lookup(files, name).Some? ==> Lookup(r, name) == Some(status)
    ensures forall n :: n != name ==> Lookup(r, n) == Lookup(files, n)
    ensures forall i :: 0 <= i < |files| && files[i].name != name ==> r[i] == files[i]
  {
    match Find(files, name)
    case None => files
    case Some(i) =>
      var r := files[i := files[i].(status := status)];
      FindSameNamesAll(r, files);
      r
  }

  /** `removeFile(name)`: delete the entry, if there is one. */
  function RemoveEntry(files: FileTable, name: string): (r: FileTable)
    requires UniqueNames(files)
    ensures UniqueNames(r)
    ensures Lookup(r, name).None?
    ensures forall n :: n != name ==> Lookup(r, n) == Lookup(files, n)
    ensures Lookup(files, name).None? ==> r == files
    ensures Lookup(files, name).Some? ==> |r| == |files| - 1
  {
    match Find(files, name)
    case None => files
    case Some(i) =>
      var r := files[..i] + files[i + 1..];
      RemoveAtLookup(files, i);
      assert forall j :: 0 <= j < |r| ==> r[j] == (if j < i then files[j] else files[j + 1]);
      r
  }

  /** The table after every entry whose name is in `names` gets `status`. */
  function Restatus(files: FileTable, names: seq<string>, status: FileStatus): (r: FileTable)
    ensures SameNames(r, files)
    ensures forall i :: 0 <= i < |files| ==>
      r[i].status == if files[i].name in names then status else files[i].status
  {
    seq(|files|, i requires 0 <= i < |files| =>
      if files[i].name in names then files[i].(status := status) else files[i])
  }

  /** Updating the files of `names` one by one, as the handlers' loops do,
      is one `Restatus` more each time. */
  lemma RestatusStep(files: FileTable, names: seq<string>, name: string, status: FileStatus)
    requires UniqueNames(files)
    ensures UpdateStatus(Restatus(files, names, status), name, status) == Restatus(files, names + [name], status)
  {
    var f1 := Restatus(files, names, status);
    var lhs := UpdateStatus(f1, name, status);
    var rhs := Restatus(files, names + [name], status);
    FindSameNames(f1, files, name);
    forall i | 0 <= i < |files| ensures lhs[i] == rhs[i] {
      if files[i].name == name {
        assert Find(files, name) == Some(i);
      }
    }
  }

  // ---------------------------------------------------------------------
  // Derived views of the file table

  /** `getFilesByStatus(status)`: the names with that status, in table order. */
  function FilesByStatus(files: FileTable, status: FileStatus): (r: seq<string>)
    ensures |r| <= |files|
    ensures forall n :: n in r <==> exists i :: 0 <= i < |files| && files[i] == FileEntry(n, status)
  {
    if files == [] then []
    else
      var rest := FilesByStatus(files[1..], status);
      TailEntries(files);
      (if files[0].status == status then [files[0].name] else []) + rest
  }

  lemma TailEntries(files: FileTable)
    requires files != []
    ensures forall i :: 1 <= i < |files| ==> files[1..][i - 1] == files[i]
  {
  }

  /** Every name in `r` is in the table, and a name listed earlier sits
      earlier in the table. */
  predicate InTableOrder(files: FileTable, r: seq<string>) {
    && (forall n :: n in r ==> Find(files, n).Some?)
    && (forall i, j :: 0 <= i < j < |r| ==> Find(files, r[i]).value < Find(files, r[j]).value)
  }

  /** The names come in table order, as `Object.keys` lists them. */
  lemma {:induction false} BucketInTableOrder(files: FileTable, status: FileStatus)
    requires UniqueNames(files)
    ensures InTableOrder(files, FilesByStatus(files, status))
  {
    if files != [] {
      var rest := files[1..];
      TailEntries(files);
      assert UniqueNames(rest) by {
        forall i, j | 0 <= i < j < |rest| ensures rest[i].name != rest[j].name {
          assert rest[i] == files[i + 1] && rest[j] == files[j + 1];
        }
      }
      BucketInTableOrder(rest, status);
      var tail := FilesByStatus(rest, status);
      forall n | n in tail ensures n != files[0].name && Find(files, n) == Some(Find(rest, n).value + 1) {
        TailShift(files, n, status);
      }
      ShiftInTableOrder(files, tail);
      assert Find(files, files[0].name) == Some(0);
      ConsInTableOrder(files, files[0].name, tail);
      if files[0].status != status {
        assert FilesByStatus(files, status) == tail;
      }
    }
  }

  lemma ShiftInTableOrder(files: FileTable, tail: seq<string>)
    requires files != [] && InTableOrder(files[1..], tail)
    requires forall n :: n in tail ==> Find(files, n) == Some(Find(files[1..], n).value + 1)
    ensures InTableOrder(files, tail)
    ensures forall n :: n in tail ==> Find(files, n).value > 0
  {
    forall i, j | 0 <= i < j < |tail| ensures Find(files, tail[i]).value < Find(files, tail[j]).value {
      assert tail[i] in tail && tail[j] in tail;
    }
  }

  lemma ConsInTableOrder(files: FileTable, h: string, tail: seq<string>)
    requires Find(files, h) == Some(0) && InTableOrder(files, tail)
    requires forall n :: n in tail ==> Find(files, n).value > 0
    ensures InTableOrder(files, [h] + tail)
  {
    var r := [h] + tail;
    assert forall n :: n in r ==> Find(files, n).Some? by {
      forall n | n in r ensures Find(files, n).Some? {
        if n != h {
          assert n in tail;
        }
      }
    }
    ConsOrdered(files, h, tail);
  }

  lemma ConsOrdered(files: FileTable, h: string, tail: seq<string>)
    requires Find(files, h) == Some(0) && InTableOrder(files, tail)
    requires forall n :: n in tail ==> Find(files, n).value > 0
    ensures forall n :: n in [h] + tail ==> Find(files, n).Some?
    ensures var r := [h] + tail;
      forall i, j :: 0 <= i < j < |r| ==> Find(files, r[i]).value < Find(files, r[j]).value
  {
    var r := [h] + tail;
    assert r[1..] == tail;
    forall i, j | 0 <= i < j < |r| ensures Find(files, r[i]).value < Find(files, r[j]).value {
      assert r[j] == tail[j - 1] && tail[j - 1] in tail;
      if i > 0 {
        assert r[i] == tail[i - 1];
      }
    }
  }

  lemma TailShift(files: FileTable, n: string, status: FileStatus)
    requires files != [] && UniqueNames(files) && n in FilesByStatus(files[1..], status)
    ensures n != files[0].name && Find(files, n) == Some(Find(files[1..], n).value + 1)
  {
    var rest := files[1..];
    var k :| 0 <= k < |rest| && rest[k] == FileEntry(n, status);
    assert files[k + 1] == rest[k];
  }

  function StagedFiles(files: FileTable): seq<string> { FilesByStatus(files, Staged) }
  function ModifiedFiles(files: FileTable): seq<string> { FilesByStatus(files, Modified) }
  function UntrackedFiles(files: FileTable): seq<string> { FilesByStatus(files, Untracked) }
  function CommittedFiles(files: FileTable): seq<string> { FilesByStatus(files, Committed) }

  /** With one entry per name, a bucket holds exactly the names whose
      status is that bucket's. */
  lemma BucketIffStatus(files: FileTable, status: FileStatus, name: string)
    requires UniqueNames(files)
    ensures name in FilesByStatus(files, status) <==> Lookup(files, name) == Some(status)
  {
    if name in FilesByStatus(files, status) {
      var i :| 0 <= i < |files| && files[i] == FileEntry(name, status);
      FindUnique(files, i);
    }
  }

  /** No name sits in two buckets. */
  lemma BucketsDisjoint(files: FileTable, s1: FileStatus, s2: FileStatus, name: string)
    requires UniqueNames(files)
    requires name in FilesByStatus(files, s1) && name in FilesByStatus(files, s2)
    ensures s1 == s2
  {
    BucketIffStatus(files, s1, name);
    BucketIffStatus(files, s2, name);
  }

  /** The four buckets together hold every entry once. */
  lemma {:induction false} BucketsPartition(files: FileTable)
    ensures |FilesByStatus(files, Untracked)| + |FilesByStatus(files, Modified)|
          + |FilesByStatus(files, Staged)| + |FilesByStatus(files, Committed)| == |files|
  {
    if files != [] {
      BucketsPartition(files[1..]);
    }
  }

  /** `hasChanges()`: `Object.values(files).some(f => f.status !== 'committed')`. */
  function HasChanges(files: FileTable): bool {
    |files| > 0 && (files[0].status != Committed || HasChanges(files[1..]))
  }

  /** The repository has changes exactly when some file is not committed,
      that is, when one of the three uncommitted buckets is non-empty. */
  lemma {:induction false} HasChangesIff(files: FileTable)
    ensures HasChanges(files) <==> exists i :: 0 <= i < |files| && files[i].status != Committed
    ensures HasChanges(files) <==>
      (StagedFiles(files) != [] || ModifiedFiles(files) != [] || UntrackedFiles(files) != [])
  {
    if files != [] {
      HasChangesIff(files[1..]);
      assert forall i :: 1 <= i < |files| ==> files[1..][i - 1] == files[i];
      if files[0].status != Committed {
        assert files[0].name in FilesByStatus(files, files[0].status);
      }
    }
  }

  /** `hasStagedChanges()`. */
  function HasStagedChanges(files: FileTable): (r: bool)
    ensures r <==> exists i :: 0 <= i < |files| && files[i].status == Staged
  {
    var staged := StagedFiles(files);
    assert staged != [] ==> staged[0] in staged;
    assert forall i :: 0 <= i < |files| && files[i].status == Staged ==>
      files[i].name in staged;
    |staged| > 0
  }

  // ---------------------------------------------------------------------
  // Commit views

  /** `getPushedCommits()`: `commits.slice(0, pushedCommitCount)`. */
  function PushedCommits(commits: seq<Commit>, count: nat): (r: seq<Commit>)
    ensures |r| == if count <= |commits| then count else |commits|
    ensures r == commits[..|r|]
  {
    if count <= |commits| then commits[..count] else commits
  }

  /** `getUnpushedCommits()`: `commits.slice(pushedCommitCount)`. */
  function UnpushedCommits(commits: seq<Commit>, count: nat): (r: seq<Commit>)
    ensures |r| == if count <= |commits| then |commits| - count else 0
    ensures PushedCommits(commits, count) + r == commits
  {
    if count <= |commits| then commits[count..] else []
  }

  /** `hasUnpushedCommits()`. */
  function HasUnpushedCommits(commits: seq<Commit>, count: nat): (r: bool)
    ensures r <==> count < |commits|
  {
    |UnpushedCommits(commits, count)| > 0
  }

  /** `getLatestCommit()`: the last commit, or nothing (`null`) when there is none. */
  function LatestCommit(commits: seq<Commit>): (r: Option<Commit>)
    ensures r.None? <==> commits == []
    ensures r.Some? ==> r.value == commits[|commits| - 1]
  {
    if |commits| > 0 then Some(commits[|commits| - 1]) else None
  }

  /** After `addCommit(c)` the latest commit is `c`, and a commit list
      has a latest commit exactly when some commit was added to it. */
  lemma LatestIsNewest(commits: seq<Commit>, c: Commit)
    ensures LatestCommit(commits + [c]) == Some(c)
    ensures LatestCommit(commits).Some? <==> exists p, d :: commits == p + [d]
  {
    if commits != [] {
      assert commits == commits[..|commits| - 1] + [commits[|commits| - 1]];
    }
  }

  // ---------------------------------------------------------------------
  // Branches

  /** `indexOf`: the first position of `x`, or -1. */
  function IndexOf<T(==)>(s: seq<T>, x: T): (r: int)
    ensures -1 <= r < |s|
    ensures r >= 0 ==> s[r] == x && forall j :: 0 <= j < r ==> s[j] != x
    ensures r == -1 <==> x !in s
  {
    if |s| == 0 then -1
    else if s[0] == x then 0
    else var k := IndexOf(s[1..], x); if k == -1 then -1 else k + 1
  }

  /** The branch list after `addBranch(name)`. */
  function WithBranch(branches: seq<string>, name: string): (r: seq<string>)
    ensures name in r && |r| >= |branches| && r[..|branches|] == branches
    ensures forall b :: b in r <==> b in branches || b == name
    ensures name in branches ==> r == branches
    ensures NoDuplicates(branches) ==> NoDuplicates(r)
  {
    if name in branches then branches else branches + [name]
  }

  /** `addBranch` is idempotent. */
  lemma AddBranchIdempotent(branches: seq<string>, name: string)
    ensures WithBranch(WithBranch(branches, name), name) == WithBranch(branches, name)
  {
  }

  /** The branch list after `removeBranch(name)`: the first occurrence is
      spliced out; nothing protects `main` or the current branch. */
  function WithoutBranch(branches: seq<string>, name: string): (r: seq<string>)
    ensures name !in branches ==> r == branches
    ensures name in branches ==> |r| == |branches| - 1
    ensures forall b :: b in r ==> b in branches
    ensures NoDuplicates(branches) ==> NoDuplicates(r) && name !in r
    ensures NoDuplicates(branches) ==> forall b :: b != name ==> (b in r <==> b in branches)
  {
    var i := IndexOf(branches, name);
    if i > -1 then
      var r := branches[..i] + branches[i + 1..];
      SpliceKeeps(branches, i);
      r
    else branches
  }

  lemma SpliceKeeps(s: seq<string>, i: nat)
    requires i < |s|
    ensures forall j :: 0 <= j < |s| - 1 ==> (s[..i] + s[i + 1..])[j] == (if j < i then s[j] else s[j + 1])
    ensures forall b :: b in s && b != s[i] ==> b in s[..i] + s[i + 1..]
  {
    var r := s[..i] + s[i + 1..];
    forall b | b in s && b != s[i] ensures b in r {
      var k :| 0 <= k < |s| && s[k] == b;
      assert r[if k < i then k else k - 1] == b;
    }
  }

  /** Removing `main` is not refused. */
  lemma MainIsRemovable()
    ensures WithoutBranch(["main", "feature"], "main") == ["feature"]
  {
    assert IndexOf(["main", "feature"], "main") == 0;
  }

  // ---------------------------------------------------------------------
  // Pull requests

  /** `pullRequests.find(p => p.id === id)`, as a position. */
  function FindPr(prs: seq<PullRequest>, id: nat): (r: Option<nat>)
    ensures r.Some? ==> r.value < |prs| && prs[r.value].id == id
    ensures r.Some? ==> forall j :: 0 <= j < r.value ==> prs[j].id != id
    ensures r.None? <==> forall j :: 0 <= j < |prs| ==> prs[j].id != id
  {
    if |prs| == 0 then None
    else if prs[0].id == id then Some(0)
    else match FindPr(prs[1..], id)
      case None => None
      case Some(k) => Some(k + 1)
  }

  /** With sequential ids, id `k` is found at position `k - 1`. */
  lemma FindPrSequential(prs: seq<PullRequest>, id: nat)
    requires SequentialIds(prs)
    ensures FindPr(prs, id) == if 1 <= id <= |prs| then Some(id - 1) else None
  {
    if 1 <= id <= |prs| {
      assert prs[id - 1].id == id;
    }
  }

  predicate SameIds(a: seq<PullRequest>, b: seq<PullRequest>) {
    |a| == |b| && forall i :: 0 <= i < |a| ==> a[i].id == b[i].id
  }

  lemma FindPrSameIds(a: seq<PullRequest>, b: seq<PullRequest>, id: nat)
    requires SameIds(a, b)
    ensures FindPr(a, id) == FindPr(b, id)
  {
    match FindPr(a, id)
    case None =>
    case Some(i) =>
      match FindPr(b, id)
      case None =>
      case Some(k) =>
        assert a[i].id == b[i].id && a[k].id == b[k].id;
  }

  /** JavaScript's `value || fallback` for an optional string. */
  function OrDefault(o: Option<string>, fallback: string): (r: string)
    ensures o.Some? && o.value != "" ==> r == o.value
    ensures o.None? || o.value == "" ==> r == fallback
  {
    if o.Some? && o.value != "" then o.value else fallback
  }

  /** The record `addPullRequest` builds for the next position. */
  function NewPullRequest(draft: PrDraft, id: nat, createdAt: string): PullRequest {
    PullRequest(id, draft.title, OrDefault(draft.description, ""), draft.sourceBranch,
                OrDefault(draft.targetBranch, "main"), Open, createdAt, None,
                if draft.commits.Some? then draft.commits.value else [])
  }

  /** The record `addPullRequest` builds takes the draft's fields, opens
      the request, and falls back to an empty description, the `main`
      target and no commits when the draft leaves them out. */
  lemma NewPullRequestDefaults(draft: PrDraft, id: nat, createdAt: string)
    ensures var pr := NewPullRequest(draft, id, createdAt);
      && pr.id == id && pr.title == draft.title && pr.sourceBranch == draft.sourceBranch
      && pr.status == Open && pr.createdAt == createdAt && pr.mergedAt.None?
      && (draft.description.None? || draft.description == Some("") ==> pr.description == "")
      && (draft.description.Some? && draft.description.value != "" ==> pr.description == draft.description.value)
      && (draft.targetBranch.None? || draft.targetBranch == Some("") ==> pr.targetBranch == "main")
      && (draft.targetBranch.Some? && draft.targetBranch.value != "" ==> pr.targetBranch == draft.targetBranch.value)
      && pr.commits == (if draft.commits.None? then [] else draft.commits.value)
  {
  }

  /** The list after `updatePullRequestStatus(id, status)`. */
  function SetPrStatus(prs: seq<PullRequest>, id: nat, status: PrStatus): (r: seq<PullRequest>)
    ensures SameIds(r, prs)
    ensures FindPr(prs, id).None? ==> r == prs
    ensures FindPr(prs, id).Some? ==>
      var i := FindPr(prs, id).value;
      r == prs[i := prs[i].(status := status)]
  {
    match FindPr(prs, id)
    case None => prs
    case Some(i) => prs[i := prs[i].(status := status)]
  }

  /** Looked up by id after `updatePullRequestStatus(id, status)`: the
      request with that id has the new status and its other fields as
      before, and the request with any other id is unchanged. */
  lemma StatusUpdateLookup(prs: seq<PullRequest>, id: nat, status: PrStatus, other: nat)
    ensures var r := SetPrStatus(prs, id, status);
      && FindPr(r, other) == FindPr(prs, other)
      && (FindPr(prs, id).Some? ==>
            var i := FindPr(prs, id).value;
            r[i].status == status && r[i].(status := prs[i].status) == prs[i])
      && (other != id && FindPr(prs, other).Some? ==>
            var k := FindPr(prs, other).value;
            r[k] == prs[k])
  {
    var r := SetPrStatus(prs, id, status);
    FindPrSameIds(r, prs, other);
    if FindPr(prs, id).Some? && other != id && FindPr(prs, other).Some? {
      assert FindPr(prs, id).value != FindPr(prs, other).value;
    }
  }

  /** The list after `mergePullRequest(id)` at time `now`: only an open
      request with that id becomes merged and gets its merge time. */
  function MergePr(prs: seq<PullRequest>, id: nat, now: string): (r: seq<PullRequest>)
    ensures SameIds(r, prs)
    ensures forall i :: 0 <= i < |prs| && prs[i].id != id ==> r[i] == prs[i]
    ensures forall i :: 0 <= i < |prs| && prs[i].status != Open ==> r[i] == prs[i]
    ensures forall i :: 0 <= i < |prs| && r[i] != prs[i] ==>
      r[i] == prs[i].(status := Merged, mergedAt := Some(now))
  {
    match FindPr(prs, id)
    case Some(i) =>
      if prs[i].status == Open then prs[i := prs[i].(status := Merged, mergedAt := Some(now))] else prs
    case None => prs
  }

  /** A merged request is merged once: the second merge changes nothing,
      its merge time included. */
  lemma MergeTwice(prs: seq<PullRequest>, id: nat, t1: string, t2: string)
    ensures MergePr(MergePr(prs, id, t1), id, t2) == MergePr(prs, id, t1)
  {
    var r := MergePr(prs, id, t1);
    FindPrSameIds(r, prs, id);
  }

  /** With sequential ids, merging an open request with a valid id marks it merged. */
  lemma MergeOpen(prs: seq<PullRequest>, id: nat, now: string)
    requires SequentialIds(prs) && 1 <= id <= |prs| && prs[id - 1].status == Open
    ensures MergePr(prs, id, now)[id - 1].status == Merged
    ensures MergePr(prs, id, now)[id - 1].mergedAt == Some(now)
  {
    FindPrSequential(prs, id);
  }

  // ---------------------------------------------------------------------
  // Hashes

  const HexChars: string := "0123456789abcdef"

  /** The shape of a generated hash: seven characters of `0-9a-f`. */
  predicate IsHash(h: string) {
    |h| == 7 && forall i :: 0 <= i < 7 ==> h[i] in HexChars
  }

  /** Seven draws of `Math.floor(Math.random() * 16)`. */
  predicate ValidRolls(rolls: seq<nat>) {
    |rolls| == 7 && forall i :: 0 <= i < 7 ==> rolls[i] < 16
  }

  /** The hash the draws `rolls` select: draw `i` picks character `i`. */
  function HashFor(rolls: seq<nat>): (h: string)
    requires ValidRolls(rolls)
    ensures IsHash(h)
  {
    seq(7, i requires 0 <= i < 7 => HexChars[rolls[i]])
  }

  /** `generateHash()`, with its random draws as a parameter. */
  method GenerateHash(rolls: seq<nat>) returns (hash: string)
    requires ValidRolls(rolls)
    ensures IsHash(hash)
    ensures forall i :: 0 <= i < 7 ==> hash[i] == HexChars[rolls[i]]
    ensures hash == HashFor(rolls)
  {
    hash := "";
    for i := 0 to 7
      invariant |hash| == i
      invariant forall j :: 0 <= j < i ==> hash[j] == HexChars[rolls[j]]
    {
      hash := hash + [HexChars[rolls[i]]];
    }
  }

  // ---------------------------------------------------------------------
  // The store

  /** The module-level `state` object and its setters. Saving to
      `localStorage` and notifying listeners happen after each change in
      the source; neither is modelled. */
  class GitStore {
    var repo: Repo
    var files: FileTable
    var commits: seq<Commit>
    var pushedCommitCount: nat
    var branches: seq<string>
    var pullRequests: seq<PullRequest>

    function Snapshot(): State
      reads this
    {
      State(repo, files, commits, pushedCommitCount, branches, pullRequests)
    }

    predicate Valid()
      reads this
    {
      WellFormed(Snapshot())
    }

    /** The push cursor lies within the commit list. */
    predicate CursorOk()
      reads this
    {
      pushedCommitCount <= |commits|
    }

    /** `loadState() || structuredClone(INITIAL_STATE)`. */
    constructor (saved: Option<State>)
      requires saved.Some? ==> WellFormed(saved.value)
      ensures Valid()
      ensures Snapshot() == if saved.Some? then saved.value else InitialState
    {
      var s := if saved.Some? then saved.value else InitialState;
      repo, files, commits, pushedCommitCount, branches, pullRequests :=
        s.repo, s.files, s.commits, s.pushedCommitCount, s.branches, s.pullRequests;
    }

    method SetCloned(value: bool)
      requires Valid()
      modifies this
      ensures Valid()
      ensures Snapshot() == old(Snapshot()).(repo := old(repo).(isCloned := value))
    {
      repo := repo.(isCloned := value);
    }

    method AddFile(name: string, status: FileStatus := Untracked)
      requires Valid()
      modifies this
      ensures Valid()
      ensures Snapshot() == old(Snapshot()).(files := SetFile(old(files), name, status))
    {
      files := SetFile(files, name, status);
    }

    method UpdateFileStatus(name: string, status: FileStatus)
      requires Valid()
      modifies this
      ensures Valid()
      ensures Snapshot() == old(Snapshot()).(files := UpdateStatus(old(files), name, status))
    {
      files := UpdateStatus(files, name, status);
    }

    method RemoveFile(name: string)
      requires Valid()
      modifies this
      ensures Valid()
      ensures Snapshot() == old(Snapshot()).(files := RemoveEntry(old(files), name))
    {
      files := RemoveEntry(files, name);
    }

    /** `addCommit(message, names)`: append one commit with a fresh hash,
      the given timestamp and a copy of the names, and return it. */
    method AddCommit(message: string, names: seq<string>, rolls: seq<nat>, timestamp: string)
      returns (c: Commit)
      requires Valid() && ValidRolls(rolls)
      modifies this
      ensures Valid()
      ensures IsHash(c.hash) && c.message == message && c.timestamp == timestamp && c.files == names
      ensures c == Commit(HashFor(rolls), message, timestamp, names)
      ensures Snapshot() == old(Snapshot()).(commits := old(commits) + [c])
    {
      var hash := GenerateHash(rolls);
      c := Commit(hash, message, timestamp, names);
      commits := commits + [c];
    }

    method SetPushedCommitCount(count: nat)
      requires Valid()
      modifies this
      ensures Valid()
      ensures Snapshot() == old(Snapshot()).(pushedCommitCount := count)
    {
      pushedCommitCount := count;
    }

    method ResetState()
      modifies this
      ensures Valid() && CursorOk()
      ensures Snapshot() == InitialState
    {
      var s := InitialState;
      repo, files, commits, pushedCommitCount, branches, pullRequests :=
        s.repo, s.files, s.commits, s.pushedCommitCount, s.branches, s.pullRequests;
    }

    method AddBranch(name: string)
      requires Valid()
      modifies this
      ensures Valid()
      ensures Snapshot() == old(Snapshot()).(branches := WithBranch(old(branches), name))
    {
      if name !in branches {
        branches := branches + [name];
      }
    }

    method RemoveBranch(name: string)
      requires Valid()
      modifies this
      ensures Valid()
      ensures Snapshot() == old(Snapshot()).(branches := WithoutBranch(old(branches), name))
    {
      var i := IndexOf(branches, name);
      if i > -1 {
        branches := branches[..i] + branches[i + 1..];
      }
    }

    method SetCurrentBranch(name: string)
      requires Valid()
      modifies this
      ensures Valid()
      ensures Snapshot() == old(Snapshot()).(repo := old(repo).(currentBranch := name))
    {
      repo := repo.(currentBranch := name);
    }

    /** `undoLastCommit()`: drop the last commit, if any. The files and the
      push cursor are left alone, so the cursor may end past the list. */
    method UndoLastCommit()
      requires Valid()
      modifies this
      ensures Valid()
      ensures Snapshot() == old(Snapshot()).(commits :=
        if |old(commits)| > 0 then old(commits)[..|old(commits)| - 1] else old(commits))
    {
      if |commits| > 0 {
        commits := commits[..|commits| - 1];
      }
    }

    method AddPullRequest(draft: PrDraft, createdAt: string) returns (pr: PullRequest)
      requires Valid()
      modifies this
      ensures Valid()
      ensures pr.id == |old(pullRequests)| + 1 && pr.status == Open && pr.mergedAt.None?
      ensures pr == NewPullRequest(draft, |old(pullRequests)| + 1, createdAt)
      ensures Snapshot() == old(Snapshot()).(pullRequests := old(pullRequests) + [pr])
    {
      pr := NewPullRequest(draft, |pullRequests| + 1, createdAt);
      pullRequests := pullRequests + [pr];
    }

    method UpdatePullRequestStatus(id: nat, status: PrStatus)
      requires Valid()
      modifies this
      ensures Valid()
      ensures Snapshot() == old(Snapshot()).(pullRequests := SetPrStatus(old(pullRequests), id, status))
    {
      pullRequests := SetPrStatus(pullRequests, id, status);
    }

    method MergePullRequest(id: nat, now: string)
      requires Valid()
      modifies this
      ensures Valid()
      ensures Snapshot() == old(Snapshot()).(pullRequests := MergePr(old(pullRequests), id, now))
    {
      pullRequests := MergePr(pullRequests, id, now);
    }
  }

  /** The initial state satisfies the store's invariants and the cursor bound. */
  lemma InitialStateWellFormed()
    ensures WellFormed(InitialState) && InitialState.pushedCommitCount <= |InitialState.commits|
  {
  }
}
