/**
 * The GitHub REST and OAuth calls of src/utils/github.ts, with `fetch`
 * replaced by the reply it would have produced. Each call maps a reply to
 * a value or to the `Error` it throws.
 */
module GitHubClient {
  import opened Common
  import opened Text
  import opened Types

  /** An HTTP reply, reduced to what the code reads: the status line and the
      JSON body, seen both as the payload `T` and as GitHub's error record
      (the code reads the one that matches `ok`). */
  datatype HttpReply<T> = HttpReply(status: int, statusText: string, payload: T, apiError: GitHubApiError) {
    /** `response.ok` */
    predicate Ok() {
      200 <= status <= 299
    }
  }

  /** `fetch(...)` and the `response.json()` that follows it: a reply with
      its parsed body, or what was thrown on the way, which every call lets
      through unchanged. That is the network layer's exception, or the
      `SyntaxError` of a body that is not JSON; the body is read before the
      status is tested, so a refused reply with such a body throws that
      error and not the status message. */
  type Fetched<T> = Outcome<HttpReply<T>>

  /** A request as sent: HTTP method, path below the API base and JSON body fields. */
  datatype Request = Request(verb: string, path: string, body: map<string, string>)

  const DeviceScope := "repo user:email"
  const DeviceGrantType := "urn:ietf:params:oauth:grant-type:device_code"

  /** The device authorization request of section 3.1 of RFC 8628. The scope
      is fixed: the call takes no scope argument. */
  function DeviceCodeRequest(clientId: string): (r: Request)
    ensures r.body.Keys == {"client_id", "scope"}
    ensures r.body["client_id"] == clientId && r.body["scope"] == DeviceScope
  {
    Request("POST", "/login/device/code", map["client_id" := clientId, "scope" := DeviceScope])
  }

  /** `initiateDeviceFlow` */
  function InitiateDeviceFlow(fetched: Fetched<DeviceFlowResponse>): (r: Outcome<DeviceFlowResponse>)
    ensures fetched.Threw? ==> r == Threw(fetched.exception)
    ensures fetched.Returned? && !fetched.value.Ok()
        ==> r == Fail("Failed to initiate device flow: " + fetched.value.statusText)
    ensures r.Returned? <==> fetched.Returned? && fetched.value.Ok()
    ensures r.Returned? ==> r.value == fetched.value.payload
  {
    match fetched
    case Threw(e) => Threw(e)
    case Returned(reply) =>
      if !reply.Ok() then Fail("Failed to initiate device flow: " + reply.statusText)
      else Returned(reply.payload)
  }

  /** The body of the access-token reply: an error reply (section 3.5 of
      RFC 8628) carries `error` and maybe `error_description`; a success
      carries the token fields. */
  datatype TokenBody = TokenBody(error: Option<string>, errorDescription: Option<string>, token: DeviceFlowTokenResponse)

  /** The device access-token request of section 3.4 of RFC 8628. */
  function TokenRequest(clientId: string, deviceCode: string): (r: Request)
    ensures r.body.Keys == {"client_id", "device_code", "grant_type"}
    ensures r.body["client_id"] == clientId
    ensures r.body["device_code"] == deviceCode && r.body["grant_type"] == DeviceGrantType
  {
    Request("POST", "/login/oauth/access_token",
      map["client_id" := clientId, "device_code" := deviceCode, "grant_type" := DeviceGrantType])
  }

  const AuthorizationPending := "AUTHORIZATION_PENDING"
  const SlowDown := "SLOW_DOWN"
  const ExpiredToken := "EXPIRED_TOKEN"
  const AccessDenied := "ACCESS_DENIED"
  const AuthFailedPrefix := "Authentication failed: "

  /** The message thrown for a token reply whose `error` is `code`: the four
      codes of section 3.5 of RFC 8628 get a marker each, any other code the
      description (or the code itself when the description is empty). */
  function TokenErrorMessage(code: string, description: Option<string>): (r: string)
    ensures code == "authorization_pending" <==> r == AuthorizationPending
    ensures code == "slow_down" <==> r == SlowDown
    ensures code == "expired_token" <==> r == ExpiredToken
    ensures code == "access_denied" <==> r == AccessDenied
    ensures code !in {"authorization_pending", "slow_down", "expired_token", "access_denied"}
        ==> StartsWith(r, AuthFailedPrefix)
  {
    if code == "authorization_pending" then AuthorizationPending
    else if code == "slow_down" then SlowDown
    else if code == "expired_token" then ExpiredToken
    else if code == "access_denied" then AccessDenied
    else
      var detail := if Truthy(description) then description.value else code;
      AuthFailedPrefix + detail
  }

  /** `pollForToken`: only the body's `error` decides; the status is not read. */
  function PollForToken(fetched: Fetched<TokenBody>): (r: Outcome<DeviceFlowTokenResponse>)
    ensures fetched.Threw? ==> r == Threw(fetched.exception)
    ensures fetched.Returned? && Truthy(fetched.value.payload.error)
        ==> r == Fail(TokenErrorMessage(fetched.value.payload.error.value, fetched.value.payload.errorDescription))
    ensures fetched.Returned? && !Truthy(fetched.value.payload.error) ==> r == Returned(fetched.value.payload.token)
  {
    match fetched
    case Threw(e) => Threw(e)
    case Returned(reply) =>
      var data := reply.payload;
      if Truthy(data.error) then Fail(TokenErrorMessage(data.error.value, data.errorDescription))
      else Returned(data.token)
  }

  /** Two token replies with the same body give the same outcome, whatever
      their status lines: an error body under HTTP 200 is still an error, and
      an error-free body under HTTP 400 is still taken as the token. */
  lemma PollForTokenIgnoresStatus(a: HttpReply<TokenBody>, b: HttpReply<TokenBody>)
    requires a.payload == b.payload
    ensures PollForToken(Returned(a)) == PollForToken(Returned(b))
  {
  }

  /** An unrecognised code is reported through its description when that is
      non-empty, and through the code otherwise; an empty `error` is no error. */
  lemma PollForTokenOtherError(reply: HttpReply<TokenBody>, code: string, description: Option<string>)
    requires reply.payload.error == Some(code) && reply.payload.errorDescription == description
    requires code !in {"", "authorization_pending", "slow_down", "expired_token", "access_denied"}
    ensures Truthy(description) ==> PollForToken(Returned(reply)) == Fail(AuthFailedPrefix + description.value)
    ensures !Truthy(description) ==> PollForToken(Returned(reply)) == Fail(AuthFailedPrefix + code)
  {
  }

  /** `getCurrentUser` */
  function GetCurrentUser(fetched: Fetched<GitHubUser>): (r: Outcome<GitHubUser>)
    ensures fetched.Threw? ==> r == Threw(fetched.exception)
    ensures fetched.Returned? && !fetched.value.Ok()
        ==> r == Fail("Failed to get user info: " + fetched.value.apiError.message)
    ensures r.Returned? <==> fetched.Returned? && fetched.value.Ok()
    ensures r.Returned? ==> r.value == fetched.value.payload
  {
    match fetched
    case Threw(e) => Threw(e)
    case Returned(reply) =>
      if !reply.Ok() then Fail("Failed to get user info: " + reply.apiError.message)
      else Returned(reply.payload)
  }

  /** `path.startsWith('/') ? path.slice(1) : path` */
  function StripLeadingSlash(path: string): (r: string)
    ensures StartsWith(path, "/") ==> path == "/" + r
    ensures !StartsWith(path, "/") ==> r == path
  {
    if StartsWith(path, "/") then path[1..] else path
  }

  /** Only one leading slash is removed: `//a` becomes `/a`. */
  lemma StripLeadingSlashOnce(rest: string)
    ensures StripLeadingSlash("/" + rest) == rest
    ensures StripLeadingSlash("//" + rest) == "/" + rest
  {
    assert ("/" + rest)[1..] == rest;
    assert ("//" + rest)[1..] == "/" + rest;
  }

  /** `encodeURIComponent`, which is not modelled. */
  type Encoder = string -> string

  /** The contents path `repos/<owner>/<repo>/contents/<encoded path>`. */
  function ContentsPath(owner: string, repo: string, path: string, encode: Encoder): string {
    "/repos/" + owner + "/" + repo + "/contents/" + encode(StripLeadingSlash(path))
  }

  /** With and without its leading slash, a file path addresses the same
      contents URL. */
  lemma ContentsPathLeadingSlash(owner: string, repo: string, path: string, encode: Encoder)
    requires !StartsWith(path, "/")
    ensures ContentsPath(owner, repo, "/" + path, encode) == ContentsPath(owner, repo, path, encode)
  {
    StripLeadingSlashOnce(path);
  }

  const AccessDeniedMessage := "Access denied. Please check repository permissions."
  const ConflictMessage := "File has been modified by someone else. Please refresh and try again."

  /** `getFile`: 404 is tested before 403; the not-found message quotes the
      path as given, leading slash included. */
  function GetFile(path: string, fetched: Fetched<GitHubFile>): (r: Outcome<GitHubFile>)
    ensures fetched.Threw? ==> r == Threw(fetched.exception)
    ensures r.Returned? <==> fetched.Returned? && fetched.value.Ok()
    ensures r.Returned? ==> r.value == fetched.value.payload
    ensures fetched.Returned? && !fetched.value.Ok() ==>
      r == Fail(if fetched.value.status == 404 then "File not found: " + path
                else if fetched.value.status == 403 then AccessDeniedMessage
                else "Failed to get file: " + fetched.value.apiError.message)
  {
    match fetched
    case Threw(e) => Threw(e)
    case Returned(reply) =>
      if !reply.Ok() then
        if reply.status == 404 then Fail("File not found: " + path)
        else if reply.status == 403 then Fail(AccessDeniedMessage)
        else Fail("Failed to get file: " + reply.apiError.message)
      else Returned(reply.payload)
  }

  /** What `updateFile` puts back: `content` is the base64 of the text's
      UTF-8 bytes, here an abstract encoder; `sha` is passed through. */
  datatype FileUpdateResult = FileUpdateResult(content: GitHubFile, commit: GitHubCommitResponse)

  function UpdateFileRequest(owner: string, repo: string, path: string, content: string, sha: string,
                             commitMessage: string, encodePath: Encoder, encodeContent: Encoder): (r: Request)
    ensures r.verb == "PUT" && r.path == ContentsPath(owner, repo, path, encodePath)
    ensures r.body.Keys == {"message", "content", "sha"}
    ensures r.body["sha"] == sha && r.body["message"] == commitMessage && r.body["content"] == encodeContent(content)
  {
    Request("PUT", ContentsPath(owner, repo, path, encodePath),
      map["message" := commitMessage, "content" := encodeContent(content), "sha" := sha])
  }

  /** `updateFile`: 403 before 409; a success yields only the commit. */
  function UpdateFile(fetched: Fetched<FileUpdateResult>): (r: Outcome<GitHubCommitResponse>)
    ensures fetched.Threw? ==> r == Threw(fetched.exception)
    ensures r.Returned? <==> fetched.Returned? && fetched.value.Ok()
    ensures r.Returned? ==> r.value == fetched.value.payload.commit
    ensures fetched.Returned? && !fetched.value.Ok() ==>
      r == Fail(if fetched.value.status == 403 then AccessDeniedMessage
                else if fetched.value.status == 409 then ConflictMessage
                else "Failed to update file: " + fetched.value.apiError.message)
  {
    match fetched
    case Threw(e) => Threw(e)
    case Returned(reply) =>
      if !reply.Ok() then
        if reply.status == 403 then Fail(AccessDeniedMessage)
        else if reply.status == 409 then Fail(ConflictMessage)
        else Fail("Failed to update file: " + reply.apiError.message)
      else Returned(reply.payload.commit)
  }

  /** `isRateLimited`: a 403 whose message mentions `rate limit` anywhere. */
  function IsRateLimited(e: GitHubApiError): (r: bool)
    ensures r <==> e.status == 403 && exists i :: OccursAt(e.message, "rate limit", i)
  {
    ContainsIff(e.message, "rate limit");
    e.status == 403 && Contains(e.message, "rate limit")
  }
}
