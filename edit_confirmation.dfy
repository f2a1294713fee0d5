/**
 * The edit step of src/components/screens/EditConfirmationScreen.tsx: the
 * file is loaded once and stamped with a timestamp comment, a preview shows
 * the lines around the comment, and confirming writes the stamped text back
 * with the blob `sha` read at load time.
 */
module EditConfirmation {
  import opened Common
  import opened Text
  import opened Types
  import opened Metadata
  import opened GitHubClient
  import opened GitHubApiHook

  /** The text the preview looks for on each line. */
  const Marker := "bsComment Editor: Updated"

  /** `lines.findIndex(line => line.includes(Marker))` searched from `from`,
      with `None` for -1. */
  function FindMarker(lines: seq<string>, from: nat): (r: Option<nat>)
    ensures r.Some? ==> from <= r.value < |lines| && Contains(lines[r.value], Marker)
    ensures r.Some? ==> forall j :: from <= j < r.value ==> !Contains(lines[j], Marker)
    ensures r.None? ==> forall j :: from <= j < |lines| ==> !Contains(lines[j], Marker)
    decreases |lines| - from
  {
    if from >= |lines| then None
    else if Contains(lines[from], Marker) then Some(from)
    else FindMarker(lines, from + 1)
  }

  function Max(a: int, b: int): int {
    if a < b then b else a
  }

  function Min(a: int, b: int): int {
    if a < b then a else b
  }

  /** A `slice` bound: a negative one counts from the end; both are clamped
      to the length. */
  function SliceBound(len: nat, k: int): (r: nat)
    ensures r <= len
  {
    if k < 0 then Max(len + k, 0) else Min(k, len)
  }

  /** `s.slice(start, end)` */
  function Slice<T>(s: seq<T>, start: int, end: int): (r: seq<T>)
    ensures 0 <= start <= end <= |s| ==> r == s[start..end]
  {
    var from := SliceBound(|s|, start);
    var to := SliceBound(|s|, end);
    if from < to then s[from..to] else []
  }

  /** The preview: the lines from three before the first marker line to
      three after it. With no marker line, `findIndex` gives -1 and the
      window is the first three lines. */
  function Preview(edited: string): (r: seq<string>)
    ensures |r| <= 7
  {
    var lines := Split(edited, '\n');
    var commentIndex: int := match FindMarker(lines, 0) case Some(i) => i case None => -1;
    Slice(lines, Max(0, commentIndex - 3), Min(|lines|, commentIndex + 4))
  }

  /** With a marker line `i`, the preview is the lines `[max(0, i-3), min(n, i+4))`,
      and the marker line is among them. */
  lemma PreviewAroundMarker(edited: string, i: nat)
    requires FindMarker(Split(edited, '\n'), 0) == Some(i)
    ensures var lines := Split(edited, '\n');
      var start := Max(0, i - 3);
      && Preview(edited) == lines[start..Min(|lines|, i + 4)]
      && 0 <= i - start < |Preview(edited)| && Preview(edited)[i - start] == lines[i]
      && Contains(Preview(edited)[i - start], Marker)
  {
  }

  /** Without a marker line, the preview is the first (at most) three lines. */
  lemma PreviewWithoutMarker(edited: string)
    requires forall j :: 0 <= j < |Split(edited, '\n')| ==> !Contains(Split(edited, '\n')[j], Marker)
    ensures var lines := Split(edited, '\n');
      Preview(edited) == lines[..Min(|lines|, 3)]
  {
    var lines := Split(edited, '\n');
    assert FindMarker(lines, 0).None?;
  }

  /** `user.name || user.login` */
  function CommitAuthor(user: GitHubUser): string {
    if user.name != "" then user.name else user.login
  }

  /** The commit's subject line, naming the file. */
  function CommitSubject(filePath: string): string {
    "bsComment Editor: Updated " + filePath
  }

  /** The commit's body, naming the author. */
  function CommitBody(user: GitHubUser): string {
    "Updated by " + CommitAuthor(user) + " via bsComment Editor"
  }

  /** The commit message: the subject, a blank line and the body. */
  function CommitMessage(filePath: string, user: GitHubUser): string {
    CommitSubject(filePath) + "\n\n" + CommitBody(user)
  }

  /** The message's lines are the subject, an empty line and the body, as
      long as the path and the author hold no newline. */
  lemma CommitMessageLines(filePath: string, user: GitHubUser)
    requires '\n' !in filePath && '\n' !in CommitAuthor(user)
    ensures Split(CommitMessage(filePath, user), '\n') == [CommitSubject(filePath), "", CommitBody(user)]
  {
    assert '\n' !in "bsComment Editor: Updated ";
    assert '\n' !in "Updated by " && '\n' !in " via bsComment Editor";
    SplitAroundBlankLine(CommitSubject(filePath), CommitBody(user));
  }

  /** `atob`: the decoded text, or `None` when it throws. */
  type Base64Decoder = string -> Option<string>

  /** The arguments `handleConfirmEdit` passes to `updateFileContent`. */
  datatype UpdateCall = UpdateCall(owner: string, repo: string, path: string, content: string, sha: string, message: string)

  /** The `PUT` that `updateFileContent` sends for a call: to the call's
      file, carrying its message, its encoded content and its `sha`. */
  function CallRequest(call: UpdateCall, encodePath: Encoder, encodeContent: Encoder): (r: Request)
    ensures r.verb == "PUT" && r.path == ContentsPath(call.owner, call.repo, call.path, encodePath)
    ensures r.body.Keys == {"message", "content", "sha"}
    ensures r.body["sha"] == call.sha && r.body["message"] == call.message
    ensures r.body["content"] == encodeContent(call.content)
  {
    UpdateFileRequest(call.owner, call.repo, call.path, call.content, call.sha, call.message, encodePath, encodeContent)
  }

  /** The text of the file a load produced, if it produced one and it decodes. */
  function LoadedText(file: Option<GitHubFile>, atob: Base64Decoder): Option<string> {
    if file.Some? then atob(file.value.content) else None
  }

  /** The screen's state; `api` is its `useGitHubAPI` hook, `token` and
      `user` come from the auth hook. */
  class EditScreen {
    const metadata: ParsedMetadata
    const token: Option<string>
    const user: Option<GitHubUser>
    const api: ApiClient
    var originalContent: string
    var editedContent: string
    var fileSha: string
    var isFileLoaded: bool
    var isEditing: bool

    constructor(metadata0: ParsedMetadata, token0: Option<string>, user0: Option<GitHubUser>)
      ensures metadata == metadata0 && token == token0 && user == user0
      ensures fresh(api) && api.token == token && !api.isLoading && api.error == None
      ensures originalContent == "" && editedContent == "" && fileSha == ""
      ensures !isFileLoaded && !isEditing
      ensures ConfirmDisabled()
    {
      metadata := metadata0;
      token := token0;
      user := user0;
      api := new ApiClient(token0);
      originalContent := "";
      editedContent := "";
      fileSha := "";
      isFileLoaded := false;
      isEditing := false;
    }

    /** The part of the `loadFile` effect before its `await`: nothing
        happens without a token or once the file is loaded; otherwise the
        hook starts its request, and the screen shows its loading spinner. */
    method BeginLoadFile() returns (started: bool)
      requires api.token == token
      modifies api
      ensures started <==> Truthy(token) && !isFileLoaded
      ensures !started ==> unchanged(api)
      ensures started ==> api.isLoading && api.error == None && ShowsSpinner()
    {
      if !Truthy(token) || isFileLoaded {
        return false;
      }
      started := api.BeginCall();
    }

    /** The rest of the `loadFile` effect, with `fetched` the reply to the
        contents request and `timestamp` the time of the stamp. The hook's
        loading ends and a failure sets its error; a load that fails (or
        whose content does not decode) changes none of the screen's fields. */
    method FinishLoadFile(fetched: Fetched<GitHubFile>, atob: Base64Decoder, timestamp: string)
      modifies this, api
      ensures !api.isLoading
      ensures GetFile(metadata.filePath, fetched).Returned? ==> api.error == old(api.error)
      ensures GetFile(metadata.filePath, fetched).Threw? ==>
        api.error == CaughtMessage(GetFile(metadata.filePath, fetched), FetchFileFallback)
      ensures var text := LoadedText(ValueOrNull(GetFile(metadata.filePath, fetched)), atob);
        && (text.Some? ==>
             && originalContent == text.value
             && editedContent == AddTimestampComment(text.value, timestamp)
             && fileSha == GetFile(metadata.filePath, fetched).value.sha
             && isFileLoaded && !ShowsSpinner()
             && (ConfirmDisabled() <==> text.value == "" || isEditing))
        && (text.None? ==>
             && originalContent == old(originalContent) && editedContent == old(editedContent)
             && fileSha == old(fileSha) && isFileLoaded == old(isFileLoaded))
      ensures isEditing == old(isEditing)
    {
      var file := api.FinishCall(GetFile(metadata.filePath, fetched), FetchFileFallback);
      if file.Some? {
        var decoded := atob(file.value.content);
        if decoded.Some? {
          var content := decoded.value;
          originalContent := content;
          editedContent := AddTimestampComment(content, timestamp);
          fileSha := file.value.sha;
          isFileLoaded := true;
        }
      }
    }

    /** The whole `loadFile` effect, both parts run back to back. */
    method LoadFile(fetched: Fetched<GitHubFile>, atob: Base64Decoder, timestamp: string)
      requires api.token == token
      modifies this, api
      ensures !Truthy(token) || old(isFileLoaded) ==> unchanged(this) && unchanged(api)
      ensures Truthy(token) && !old(isFileLoaded) ==>
        && !api.isLoading
        && api.error == CaughtMessage(GetFile(metadata.filePath, fetched), FetchFileFallback)
      ensures Truthy(token) && !old(isFileLoaded) ==>
        var text := LoadedText(ValueOrNull(GetFile(metadata.filePath, fetched)), atob);
        && (text.Some? ==>
             && originalContent == text.value
             && editedContent == AddTimestampComment(text.value, timestamp)
             && fileSha == GetFile(metadata.filePath, fetched).value.sha
             && isFileLoaded
             && (ConfirmDisabled() <==> text.value == "" || isEditing))
        && (text.None? ==>
             && originalContent == old(originalContent) && editedContent == old(editedContent)
             && fileSha == old(fileSha) && isFileLoaded == old(isFileLoaded))
      ensures isEditing == old(isEditing)
    {
      var started := BeginLoadFile();
      if started {
        FinishLoadFile(fetched, atob, timestamp);
      }
    }

    /** The part of `handleConfirmEdit` before its `await`: nothing happens
        without a token or a user; otherwise the edit is marked as running
        (both buttons disabled), the error is cleared and the hook starts
        the update, sending the stamped text with the `sha` read at load
        time. */
    method BeginConfirmEdit() returns (sent: Option<UpdateCall>)
      requires api.token == token
      modifies this, api
      ensures !Truthy(token) || user.None? ==> sent == None && unchanged(this) && unchanged(api)
      ensures Truthy(token) && user.Some? ==>
        && sent == Some(UpdateCall(metadata.owner, metadata.repoName, metadata.filePath,
                                   editedContent, fileSha, CommitMessage(metadata.filePath, user.value)))
        && isEditing && ConfirmDisabled() && BackDisabled()
        && api.isLoading && api.error == None
      ensures originalContent == old(originalContent) && editedContent == old(editedContent)
      ensures fileSha == old(fileSha) && isFileLoaded == old(isFileLoaded)
    {
      if !Truthy(token) || user.None? {
        return None;
      }
      isEditing := true;
      api.ClearError();
      var commitMessage := CommitMessage(metadata.filePath, user.value);
      sent := Some(UpdateCall(metadata.owner, metadata.repoName, metadata.filePath, editedContent, fileSha, commitMessage));
      var started := api.BeginCall();
    }

    /** The rest of `handleConfirmEdit`, with `fetched` the reply to the
        update: the hook's loading ends and a failure sets its error; the
        commit's page (what `onEditComplete` receives) is yielded only when
        the update succeeded; the edit is over, so both buttons depend on
        the loaded content alone. */
    method FinishConfirmEdit(fetched: Fetched<FileUpdateResult>) returns (completed: Option<string>)
      modifies this, api
      ensures completed == (if UpdateFile(fetched).Returned? then Some(UpdateFile(fetched).value.htmlUrl) else None)
      ensures !isEditing && !BackDisabled() && !api.isLoading
      ensures UpdateFile(fetched).Returned? ==> api.error == old(api.error)
      ensures UpdateFile(fetched).Threw? ==> api.error == CaughtMessage(UpdateFile(fetched), UpdateFileFallback)
      ensures ConfirmDisabled() <==> originalContent == ""
      ensures originalContent == old(originalContent) && editedContent == old(editedContent)
      ensures fileSha == old(fileSha) && isFileLoaded == old(isFileLoaded)
    {
      var commit := api.FinishCall(UpdateFile(fetched), UpdateFileFallback);
      completed := if commit.Some? then Some(commit.value.htmlUrl) else None;
      isEditing := false;
    }

    /** `handleConfirmEdit`, both parts run back to back. */
    method HandleConfirmEdit(fetched: Fetched<FileUpdateResult>) returns (sent: Option<UpdateCall>, completed: Option<string>)
      requires api.token == token
      modifies this, api
      ensures !Truthy(token) || user.None? ==> sent == None && completed == None && unchanged(this) && unchanged(api)
      ensures Truthy(token) && user.Some? ==>
        && sent == Some(UpdateCall(metadata.owner, metadata.repoName, metadata.filePath,
                                   editedContent, fileSha, CommitMessage(metadata.filePath, user.value)))
        && completed == (if UpdateFile(fetched).Returned? then Some(UpdateFile(fetched).value.htmlUrl) else None)
        && !isEditing
        && !api.isLoading
        && api.error == CaughtMessage(UpdateFile(fetched), UpdateFileFallback)
        && (ConfirmDisabled() <==> old(originalContent) == "")
      ensures originalContent == old(originalContent) && editedContent == old(editedContent)
      ensures fileSha == old(fileSha) && isFileLoaded == old(isFileLoaded)
    {
      sent := BeginConfirmEdit();
      if sent.None? {
        return sent, None;
      }
      completed := FinishConfirmEdit(fetched);
    }

    /** The loading spinner replaces the screen while the hook loads and no
        file has been loaded yet. */
    predicate ShowsSpinner()
      reads this, api
    {
      api.isLoading && !isFileLoaded
    }

    /** The back button's `disabled`: an edit runs. */
    predicate BackDisabled()
      reads this
    {
      isEditing
    }

    /** The confirm button's `disabled`: nothing (or an empty file) is
        loaded, or an edit runs. */
    predicate ConfirmDisabled()
      reads this
    {
      originalContent == "" || isEditing
    }
  }
}
