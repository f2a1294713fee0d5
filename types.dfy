/**
 * The records the wizard passes around (src/types/index.ts), as values.
 */
module Types {
  import opened Common

  /** The four `<meta>` values read from the published HTML file. */
  datatype BsCommentMetadata = BsCommentMetadata(repo: string, filepath: string, generated: string, generator: string)

  /** Metadata once validated: the repository split into owner and name. */
  datatype ParsedMetadata = ParsedMetadata(
    repoUrl: string, owner: string, repoName: string,
    filePath: string, generated: string, generator: string)

  datatype GitHubUser = GitHubUser(login: string, id: int, avatarUrl: string, name: string, email: string)

  /** What GitHub's Contents API returns for a file; `content` is base64 text. */
  datatype GitHubFile = GitHubFile(name: string, path: string, sha: string, content: string, encoding: string)

  /** The reply to the device-code request of section 3.2 of RFC 8628. */
  datatype DeviceFlowResponse = DeviceFlowResponse(
    deviceCode: string, userCode: string, verificationUri: string, expiresIn: int, interval: int)

  /** A successful token reply (section 3.5 of RFC 8628, section 5.1 of RFC 6749). */
  datatype DeviceFlowTokenResponse = DeviceFlowTokenResponse(accessToken: string, tokenType: string, scope: string)

  datatype GitHubCommitResponse = GitHubCommitResponse(sha: string, url: string, htmlUrl: string, message: string)

  /** The body of a failed GitHub API call. */
  datatype GitHubApiError = GitHubApiError(message: string, status: int)

  datatype GitHubAuthState = GitHubAuthState(
    isAuthenticated: bool, token: Option<string>, user: Option<GitHubUser>, isLoading: bool, error: Option<string>)

  datatype AppScreen =
    | UrlInput
    | MetadataReview
    | PermissionSelection
    | GitHubAuth
    | EditConfirmation
    | Success
    | ErrorScreen

  /** `{ isValid, error? }`: a failed check carries its reason. */
  datatype ValidationResult = ValidationResult(isValid: bool, error: Option<string>) {
    /** A result is well formed when the reason is present exactly for a failure. */
    predicate WellFormed() {
      isValid <==> error.None?
    }
  }
}
