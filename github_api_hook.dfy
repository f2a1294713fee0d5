/**
 * The `useGitHubAPI` hook of src/hooks/useGitHubAPI.ts: `isLoading` and
 * `error` kept around one contents-API call made with the signed-in
 * token. Each call takes the reply its request would produce.
 */
module GitHubApiHook {
  import opened Common
  import opened Types
  import opened GitHubClient

  const NoTokenMessage := "No authentication token available"
  const FetchFileFallback := "Failed to fetch file"
  const UpdateFileFallback := "Failed to update file"

  /** The hook's state; `token` is the hook's argument. */
  class ApiClient {
    const token: Option<string>
    var isLoading: bool
    var error: Option<string>

    constructor(token0: Option<string>)
      ensures token == token0 && !isLoading && error == None
    {
      token := token0;
      isLoading := false;
      error := None;
    }

    /** The guard and bookkeeping in front of either call: without a token
        the error is set and no request is made; otherwise the hook shows it
        is loading, with no error. */
    method BeginCall() returns (started: bool)
      modifies this
      ensures started <==> Truthy(token)
      ensures started ==> isLoading && error == None
      ensures !started ==> error == Some(NoTokenMessage) && isLoading == old(isLoading)
    {
      if !Truthy(token) {
        error := Some(NoTokenMessage);
        return false;
      }
      isLoading := true;
      error := None;
      return true;
    }

    /** The bookkeeping after either call: loading ends, and a failure is
        recorded as its message, or as `fallback` for a non-`Error`. */
    method FinishCall<T>(outcome: Outcome<T>, fallback: string) returns (r: Option<T>)
      modifies this
      ensures !isLoading && r == ValueOrNull(outcome)
      ensures outcome.Returned? ==> error == old(error)
      ensures outcome.Threw? ==> error == CaughtMessage(outcome, fallback)
    {
      match outcome
      case Returned(v) =>
        isLoading := false;
        r := Some(v);
      case Threw(e) =>
        error := Some(MessageOr(e, fallback));
        isLoading := false;
        r := None;
    }

    /** `fetchFile(owner, repo, path)`, where `fetched` is the reply to the
        request for `ContentsPath(owner, repo, path)`. */
    method FetchFile(path: string, fetched: Fetched<GitHubFile>) returns (r: Option<GitHubFile>)
      modifies this
      ensures !Truthy(token) ==> r == None && error == Some(NoTokenMessage) && isLoading == old(isLoading)
      ensures Truthy(token) ==>
        && !isLoading
        && r == ValueOrNull(GetFile(path, fetched))
        && error == CaughtMessage(GetFile(path, fetched), FetchFileFallback)
    {
      var started := BeginCall();
      if !started {
        return None;
      }
      r := FinishCall(GetFile(path, fetched), FetchFileFallback);
    }

    /** `updateFileContent(owner, repo, path, content, sha, message)`, where
        `fetched` is the reply to the `PUT` built by `UpdateFileRequest`. */
    method UpdateFileContent(fetched: Fetched<FileUpdateResult>) returns (r: Option<GitHubCommitResponse>)
      modifies this
      ensures !Truthy(token) ==> r == None && error == Some(NoTokenMessage) && isLoading == old(isLoading)
      ensures Truthy(token) ==>
        && !isLoading
        && r == ValueOrNull(UpdateFile(fetched))
        && error == CaughtMessage(UpdateFile(fetched), UpdateFileFallback)
    {
      var started := BeginCall();
      if !started {
        return None;
      }
      r := FinishCall(UpdateFile(fetched), UpdateFileFallback);
    }

    /** `clearError` */
    method ClearError()
      modifies this
      ensures error == None && isLoading == old(isLoading)
    {
      error := None;
    }
  }
}
