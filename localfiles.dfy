/** The local-files pane: editing a file, and the "add file" dialog with
    its file-name rules. The dialog is a small object with the two fields
    the handlers change: whether it is hidden and the text in its input. */
module LocalFiles {
  import opened Text
  import opened Store
  import opened Output
  import opened Commands

  // ---------------------------------------------------------------------
  // Editing a file

  const EditHint: string := "(Use \"git add\" to stage your changes)"

  /** `handleEditFile(name)`: a committed or staged file becomes modified;
      anything else is left alone. */
  function EditStep(s: State, name: string): Outcome {
    match Lookup(s.files, name)
    case None => Outcome(s, [])
    case Some(status) =>
      if status == Committed || status == Staged then
        Outcome(s.(files := UpdateStatus(s.files, name, Modified)),
                [PrintOutput("Modified: " + name), PrintOutput(EditHint), PrintNewline])
      else Outcome(s, [])
  }

  method HandleEditFile(st: GitStore, name: string) returns (calls: seq<Call>)
    requires st.Valid()
    modifies st
    ensures st.Valid()
    ensures Outcome(st.Snapshot(), calls) == EditStep(old(st.Snapshot()), name)
  {
    var found := Lookup(st.files, name);
    if found.None? {
      return [];
    }
    if found.value == Committed || found.value == Staged {
      st.UpdateFileStatus(name, Modified);
      calls := [PrintOutput("Modified: " + name), PrintOutput(EditHint), PrintNewline];
    } else {
      calls := [];
    }
  }

  /** Editing moves a committed or staged file to modified, touches no
      other file, and changes nothing for an untracked, modified or unknown name. */
  lemma EditTransitions(s: State, name: string, n: string)
    requires WellFormed(s)
    ensures var t := EditStep(s, name).state;
      && ((Lookup(s.files, name) == Some(Committed) || Lookup(s.files, name) == Some(Staged)) ==>
            Lookup(t.files, name) == Some(Modified))
      && (Lookup(s.files, name) != Some(Committed) && Lookup(s.files, name) != Some(Staged) ==> t == s)
      && (n != name ==> Lookup(t.files, n) == Lookup(s.files, n))
      && WellFormed(t)
  {
  }

  /** After an edit, `git add` of that file stages it again. */
  lemma EditThenAdd(s: State, name: string)
    requires WellFormed(s) && s.repo.isCloned && name != "."
    requires Lookup(s.files, name) == Some(Committed)
    ensures var t := EditStep(s, name).state;
      Lookup(AddStep(t, [name]).state.files, name) == Some(Staged)
  {
    var t := EditStep(s, name).state;
    assert Lookup(t.files, name) == Some(Modified);
  }

  // ---------------------------------------------------------------------
  // The add-file dialog

  /** The characters the pattern `^[^\/\\:*?"<>|]+$` refuses. */
  predicate IsForbiddenChar(c: char) {
    c == '/' || c == '\\' || c == ':' || c == '*' || c == '?' || c == '"' || c == '<' || c == '>' || c == '|'
  }

  /** The name matches the pattern (non-empty, no forbidden character)
      and does not start with a dot. */
  predicate ValidFileName(name: string) {
    && |name| > 0
    && (forall i :: 0 <= i < |name| ==> !IsForbiddenChar(name[i]))
    && !StartsWith(name, ".")
  }

  const InvalidNameAlert: string := "Invalid filename. Avoid special characters: / \\ : * ? \" < > |"
  const ExistsAlert: string := "File already exists."
  const CreatedHint: string := "(New file is untracked. Use \"git add\" to stage it)"

  /** What confirming the dialog decides. */
  datatype NewFileDecision = Ignored | Rejected(alert: string) | Created(name: string)

  /** The checks of `handleConfirmAddFile`, in order: blank after trimming,
      bad name, existing name. */
  function DecideNewFile(files: FileTable, typed: string): (r: NewFileDecision)
    ensures r.Created? ==> r.name == Trim(typed) && ValidFileName(r.name) && Lookup(files, r.name).None?
    ensures r.Ignored? <==> Trim(typed) == ""
    ensures r.Created? <==> ValidFileName(Trim(typed)) && Lookup(files, Trim(typed)).None?
    ensures r == Rejected(ExistsAlert) <==> ValidFileName(Trim(typed)) && Lookup(files, Trim(typed)).Some?
    ensures r == Rejected(InvalidNameAlert) <==> Trim(typed) != "" && !ValidFileName(Trim(typed))
  {
    var name := Trim(typed);
    if name == "" then Ignored
    else if !ValidFileName(name) then Rejected(InvalidNameAlert)
    else if Lookup(files, name).Some? then Rejected(ExistsAlert)
    else Created(name)
  }

  class AddFileModal {
    var hidden: bool
    var value: string

    constructor ()
      ensures hidden && value == ""
    {
      hidden := true;
      value := "";
    }
  }

  /** `handleAddFileClick()`: refuse before a clone, otherwise open the
      dialog with an empty input. */
  method HandleAddFileClick(st: GitStore, modal: AddFileModal) returns (calls: seq<Call>)
    modifies modal
    ensures !st.repo.isCloned ==>
      calls == [PrintError("Clone a repository first!")] && modal.hidden == old(modal.hidden) && modal.value == old(modal.value)
    ensures st.repo.isCloned ==> calls == [] && !modal.hidden && modal.value == ""
  {
    if !st.repo.isCloned {
      return [PrintError("Clone a repository first!")];
    }
    modal.hidden := false;
    modal.value := "";
    calls := [];
  }

  method HandleCancelAddFile(modal: AddFileModal)
    modifies modal
    ensures modal.hidden && modal.value == old(modal.value)
  {
    modal.hidden := true;
  }

  /** `handleConfirmAddFile()`. A blank name does nothing; a bad or existing
      name raises an alert and leaves the dialog open; a good new name is
      added as untracked and the dialog closes. */
  method HandleConfirmAddFile(st: GitStore, modal: AddFileModal) returns (calls: seq<Call>, alert: Option<string>)
    requires st.Valid()
    modifies st, modal
    ensures st.Valid()
    ensures modal.value == old(modal.value)
    ensures match DecideNewFile(old(st.files), old(modal.value))
      case Ignored =>
        st.Snapshot() == old(st.Snapshot()) && modal.hidden == old(modal.hidden) && calls == [] && alert.None?
      case Rejected(message) =>
        st.Snapshot() == old(st.Snapshot()) && modal.hidden == old(modal.hidden) && calls == [] && alert == Some(message)
      case Created(name) =>
        && st.Snapshot() == old(st.Snapshot()).(files := SetFile(old(st.files), name, Untracked))
        && modal.hidden && alert.None?
        && calls == [PrintOutput("Created: " + name), PrintOutput(CreatedHint), PrintNewline]
  {
    calls, alert := [], None;
    match DecideNewFile(st.files, modal.value) {
      case Ignored =>
      case Rejected(message) =>
        alert := Some(message);
      case Created(name) =>
        st.AddFile(name, Untracked);
        modal.hidden := true;
        calls := [PrintOutput("Created: " + name), PrintOutput(CreatedHint), PrintNewline];
    }
  }

  /** A created file is new: it is appended as untracked and no existing
      entry is overwritten. */
  lemma CreateAppends(files: FileTable, typed: string)
    requires UniqueNames(files) && DecideNewFile(files, typed).Created?
    ensures var name := DecideNewFile(files, typed).name;
      && SetFile(files, name, Untracked) == files + [FileEntry(name, Untracked)]
      && UniqueNames(files + [FileEntry(name, Untracked)])
  {
    var name := DecideNewFile(files, typed).name;
    assert Find(files, name).None?;
  }

  /** A name with a forbidden character, or starting with a dot, is refused. */
  lemma BadNamesRejected(files: FileTable, typed: string)
    requires Trim(typed) != ""
    requires (exists i :: 0 <= i < |Trim(typed)| && IsForbiddenChar(Trim(typed)[i])) || StartsWith(Trim(typed), ".")
    ensures DecideNewFile(files, typed) == Rejected(InvalidNameAlert)
  {
  }

  /** Typed text that is all white space is ignored, whatever the table holds. */
  lemma BlankIgnored(files: FileTable, typed: string)
    requires IsBlank(typed)
    ensures DecideNewFile(files, typed) == Ignored
  {
    TrimEmptyIffBlank(typed);
  }

  /** Surrounding white space does not matter: the trimmed name is the one created. */
  lemma CreatedNameTrimmed(files: FileTable, typed: string)
    requires DecideNewFile(files, typed).Created?
    ensures var name := DecideNewFile(files, typed).name;
      !IsJsSpace(name[0]) && !IsJsSpace(name[|name| - 1])
  {
  }

  // The comment beside the name check says spaces are refused as well as
  // the special characters, but the pattern lets a space through.

  /** As written: a name with a space inside is created. */
  lemma SpacedNameCreated(files: FileTable)
    requires Lookup(files, "my file").None?
    ensures DecideNewFile(files, "my file") == Created("my file")
  {
    assert TrimStart("my file") == "my file";
    assert TrimEnd("my file") == "my file";
    assert !StartsWith("my file", ".");
  }

  /** The name rule the comment describes: the pattern, no leading dot, and no space. */
  predicate ValidFileNameNoSpaces(name: string) {
    ValidFileName(name) && forall i :: 0 <= i < |name| ==> name[i] != ' '
  }

  /** The dialog's decision under the rule the comment describes. */
  function DecideNewFileNoSpaces(files: FileTable, typed: string): (r: NewFileDecision)
    ensures r.Created? ==> ' ' !in r.name
  {
    var name := Trim(typed);
    if name == "" then Ignored
    else if !ValidFileNameNoSpaces(name) then Rejected(InvalidNameAlert)
    else if Lookup(files, name).Some? then Rejected(ExistsAlert)
    else Created(name)
  }

  /** The corrected rule refuses exactly the names with a space beyond the
      pattern, and otherwise decides as the code does. */
  lemma NoSpacesDecision(files: FileTable, typed: string)
    ensures ' ' in Trim(typed) ==> DecideNewFileNoSpaces(files, typed) == Rejected(InvalidNameAlert)
    ensures ' ' !in Trim(typed) ==> DecideNewFileNoSpaces(files, typed) == DecideNewFile(files, typed)
  {
    var name := Trim(typed);
    if ' ' in name {
      var k :| 0 <= k < |name| && name[k] == ' ';
      assert !ValidFileNameNoSpaces(name);
    }
  }

  /** A created file can be staged at once: `git add` with its name as the
      one argument stages it. */
  lemma CreateThenAdd(s: State, typed: string)
    requires WellFormed(s) && s.repo.isCloned && DecideNewFile(s.files, typed).Created?
    ensures var name := DecideNewFile(s.files, typed).name;
      var t := s.(files := SetFile(s.files, name, Untracked));
      Lookup(AddStep(t, [name]).state.files, name) == Some(Staged)
  {
    var name := DecideNewFile(s.files, typed).name;
    NotDot(name);
    StageNew(s, name);
  }

  lemma NotDot(name: string)
    requires ValidFileName(name)
    ensures name != "."
  {
    assert StartsWith(".", ".");
  }

  /** A new name added as untracked is staged by `git add` of it. */
  lemma StageNew(s: State, name: string)
    requires WellFormed(s) && s.repo.isCloned && name != "." && Lookup(s.files, name).None?
    ensures var t := s.(files := SetFile(s.files, name, Untracked));
      Lookup(AddStep(t, [name]).state.files, name) == Some(Staged)
  {
    var t := s.(files := SetFile(s.files, name, Untracked));
    assert Lookup(t.files, name) == Some(Untracked);
    assert WellFormed(t);
    AddOneIdempotent(t, name);
  }
}
