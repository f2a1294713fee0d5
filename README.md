# bscomment-edit in Dafny

bscomment-edit is a browser wizard that adds an "updated" comment to an HTML
page published from a GitHub repository. The user gives the page's URL. The
page's `markpub:` meta tags name the repository and the file. The user signs
in with GitHub's device flow (RFC 8628). The wizard then writes the stamped
file back through GitHub's Contents API.

This project models the logic behind those steps:

- **Input checks** (`Validation`): `validateUrl`, `validateGitHubRepo` and
  `validateFilePath`, each returning the first reason that fails.
- **Metadata** (`Metadata`): the meta-tag extractor, `parseMetadata` with
  its unanchored owner/name search, and `addTimestampComment`.
- **GitHub client** (`GitHubClient`): the request bodies, how each reply
  becomes a value or a thrown message, path stripping and `isRateLimited`.
- **Serverless proxy** (`DeviceFlowProxy`): the device-flow `handler`, as a
  function from request to response.
- **Sign-in controller** (`Auth`): session restore, `startDeviceFlow`,
  `startPolling`, the self-rescheduling `poll`, `logout` and `clearError`.
  - Each poll's decision is a function, `DecidePoll`.
  - A driver loop, `RunPolling`, runs the timer chain against a sequence of
    replies and delays. It is proved equal to the function `RunFrom`.
  - The lemmas about `RunFrom` give the delays, the deadline and
    termination.
- **Hooks** (`MetadataHook`, `GitHubApiHook`): the `isLoading`/`error`
  bookkeeping of `useMetadata` and `useGitHubAPI`.
- **Screens** (`UrlInput`, `EditConfirmation`, `ErrorScreen`): the URL form,
  the load-and-confirm steps of the edit screen with its preview window, and
  the error page's suggestions and buttons.
- **Wizard** (`App`): the screen state, its handlers and which view is drawn.
- **Walkthrough** (`Walkthrough`): one end-to-end path, a page refused with
  `404 Not Found`.

How JavaScript is modelled:

- **Throws:** `Outcome<T>` (`Returned(v)` or `Threw(e)`). A thrown `Error`
  has a name and a message; any other thrown value has no message.
- **Outside code:** `fetch`, `new URL`, the DOM parser, `JSON.parse`, `atob`
  and the encoders are parameters. So are the clock and the timestamp.
- **Stateful code:** hooks and screens are classes whose methods change
  their fields.
- **Async handlers:** `handleUrlSubmit`, the two hooks' calls,
  `startDeviceFlow`, and the edit screen's `loadFile` and
  `handleConfirmEdit` are each split where they await. The part before the
  `await` and the part after it are separate methods (`Begin…`/`Finish…`),
  so the in-between state (loading, errors cleared, buttons disabled) is
  stated. The whole handler calls both. One run of `poll` is a single step.

Each module is in the file named after it (`Auth` in `auth.dfy`, …).
`Common` holds `Option`/`Outcome`, `Text` the JavaScript string operations
used (`trim`, `includes`, `lastIndexOf`, `split`, `toLowerCase`), and
`Types` the records of `src/types/index.ts`.

## Model

| member | source | states |
|---|---|---|
| Text.Trim | src/utils/validation.ts:4 | `trim()` is a slice of the input with only JavaScript white space before and after it; it is empty exactly for a blank input, and otherwise neither starts nor ends with white space |
| Text.ToLowerAscii | src/utils/validation.ts:41 | `toLowerCase()` keeps the length and lower-cases each character |
| Text.LastIndexOf | src/utils/metadata.ts:60 | `lastIndexOf` returns an index where the text occurs with no later occurrence, or none when it never occurs |
| Text.Split | src/components/screens/EditConfirmationScreen.tsx:68 | `split` on one character gives at least one part, none holding the separator |
| Text.JoinSplit | src/components/screens/EditConfirmationScreen.tsx:68 | joining the parts of a split with the separator gives the text back |
| Text.SplitJoin | src/components/screens/EditConfirmationScreen.tsx:68 | splitting a join of separator-free parts gives the parts back |
| Common.CaughtMessage | src/hooks/useGitHubAPI.ts:26-31 | a `catch` records no message for a returned call, the message of a thrown `Error`, and the fallback for any other thrown value |
| Validation.ValidateUrl | src/utils/validation.ts:3-17 | blank input gives 'URL is required' before any parse; unparseable input gives 'Please enter a valid URL'; a parsed URL is valid exactly for `http:`/`https:`, else 'URL must use HTTP or HTTPS protocol'; `isValid` iff no error |
| Validation.StripTrailingSlash | src/utils/validation.ts:25 | `replace(/\/$/, '')` removes one trailing slash when there is one and changes nothing otherwise |
| Validation.ValidateGitHubRepo | src/utils/validation.ts:19-30 | a URL without `github.com` gives 'Repository must be hosted on GitHub'; any other refusal is 'Invalid GitHub repository URL format'; `isValid` iff no error |
| Validation.MatchRepoPatternIff | src/utils/validation.ts:24 | the anchored pattern yields `(owner, repo)` exactly for `http(s)://github.com/owner/repo` with at most one trailing slash and non-empty, slash-free segments |
| Validation.MatchRepoPatternSound | src/utils/validation.ts:24 | whatever the pattern matches is one of those spellings |
| Validation.ValidateGitHubRepoIff | src/utils/validation.ts:19-29 | a repository URL is valid iff the pattern matches it after one trailing slash is stripped |
| Validation.ValidateGitHubRepoTrailingSlashes | src/utils/validation.ts:24-25 | `…/O/R`, `…/O/R/` and `…/O/R//` validate; `…/O/R///` does not |
| Validation.ValidateGitHubRepoSlashInvariant | src/utils/validation.ts:19-29 | adding one slash to a URL that does not end in one never changes the verdict or the message |
| Validation.ValidateGitHubRepoCaseSensitive | src/utils/validation.ts:24 | an upper-case scheme or host is refused |
| Validation.ValidWhenStripsTo | src/utils/validation.ts:19-29 | a URL that strips to an accepted spelling validates |
| Validation.ValidateFilePath | src/utils/validation.ts:32-46 | blank, then no leading `/`, then no case-insensitive `.html` ending, each with its message; valid iff it starts with `/` and ends in `.html`; `isValid` iff no error |
| Metadata.ExtractMetadataFromHtml | src/utils/metadata.ts:4-23 | nothing iff one of the four `markpub:` tags is missing; otherwise each field is its tag's `content`, or empty without one |
| Metadata.ParseMetadata | src/utils/metadata.ts:25-53 | the repository is checked before the path, each failure throwing 'Invalid repository URL: '/'Invalid file path: ' plus the reason; a result has the once-stripped `repoUrl` and the other fields passed through |
| Metadata.SearchRepoGroupsOf | src/utils/metadata.ts:38 | the unanchored `github.com/…/…` search finds the owner and the name of an accepted URL, whatever slashes follow |
| Metadata.ValidRepoShape | src/utils/metadata.ts:28-29 | a URL that validates is an accepted spelling followed by at most one more slash |
| Metadata.ParseMetadataValid | src/utils/metadata.ts:38-52 | once both checks pass, `parseMetadata` returns, with the groups of the anchored validation pattern |
| Metadata.ParseMetadataReturnsIff | src/utils/metadata.ts:25-53 | `parseMetadata` returns iff both checks pass; 'Could not parse repository owner and name' is never thrown, so it never yields null |
| Metadata.ParseMetadataThrowsError | src/utils/metadata.ts:28-41 | whatever `parseMetadata` throws is a plain `Error` |
| Metadata.RepoUrlWithTail | src/utils/metadata.ts:38-46 | an accepted spelling with or without one trailing slash strips to the bare form, validates and yields its two segments |
| Metadata.ParseMetadataTrailingSlash | src/utils/metadata.ts:38-52 | `https://github.com/foo/bar/` and `https://github.com/foo/bar` parse to the same record, owner `foo`, name `bar` |
| Metadata.InsertAt | src/utils/metadata.ts:66-68 | an insertion keeps the text before and after the index and puts the new text in between |
| Metadata.AddTimestampComment | src/utils/metadata.ts:55-69 | without `</body>` the comment is appended after a newline; otherwise comment and newline go just before the last `</body>`; the length grows by the comment plus one |
| Metadata.InsertKeepsLastBodyClose | src/utils/metadata.ts:60-68 | after the insertion the page's `</body>` is still the last one, shifted by the inserted text |
| Metadata.AddTimestampCommentTwice | src/utils/metadata.ts:55-69 | two stamps on a page with `</body>` both land before it, in call order, the rest unchanged |
| GitHubClient.DeviceCodeRequest | src/utils/github.ts:13-24 | the device-code request carries the client id and the fixed scope `repo user:email`, nothing else |
| GitHubClient.InitiateDeviceFlow | src/utils/github.ts:13-31 | a reply that is not ok throws 'Failed to initiate device flow: ' with its status text; an ok reply returns its body; a network throw passes through |
| GitHubClient.TokenRequest | src/utils/github.ts:33-45 | the token request carries exactly the client id, the device code and the device-code grant type of RFC 8628 section 3.4 |
| GitHubClient.TokenErrorMessage | src/utils/github.ts:49-63 | each of the four codes of RFC 8628 section 3.5 gives its own message and no other code does; any other code gives a message starting 'Authentication failed: ' |
| GitHubClient.PollForToken | src/utils/github.ts:33-66 | a body with a non-empty `error` throws that code's message; any other body is returned as the token |
| GitHubClient.PollForTokenIgnoresStatus | src/utils/github.ts:47-65 | replies with the same body give the same outcome whatever their status |
| GitHubClient.PollForTokenOtherError | src/utils/github.ts:62 | an unknown code is reported through its description when non-empty, else through the code |
| GitHubClient.GetCurrentUser | src/utils/github.ts:68-82 | a failed reply throws 'Failed to get user info: ' plus the API message; an ok reply returns the user |
| GitHubClient.StripLeadingSlash | src/utils/github.ts:85 | exactly one leading slash is removed when present |
| GitHubClient.StripLeadingSlashOnce | src/utils/github.ts:85 | `/a` becomes `a`, `//a` becomes `/a` |
| GitHubClient.ContentsPathLeadingSlash | src/utils/github.ts:84-86 | a path with and without its leading slash addresses the same contents URL |
| GitHubClient.GetFile | src/utils/github.ts:84-105 | returns iff the reply is ok; otherwise 404 gives 'File not found: ' plus the path as given, then 403 access denied, else 'Failed to get file: ' plus the API message |
| GitHubClient.UpdateFileRequest | src/utils/github.ts:115-131 | the `PUT` carries the message, the encoded content and the unchanged `sha`, nothing else |
| GitHubClient.UpdateFile | src/utils/github.ts:107-146 | returns only the commit iff the reply is ok; otherwise 403 access denied, then 409 conflict, else 'Failed to update file: ' plus the API message |
| GitHubClient.IsRateLimited | src/utils/github.ts:148-150 | true iff the status is 403 and the message contains `rate limit` |
| DeviceFlowProxy.BodyText | netlify/functions/github-device-flow.ts:33 | a missing or empty body is read as `{}` |
| DeviceFlowProxy.UpstreamCallFor | netlify/functions/github-device-flow.ts:34-79 | only the strings `initiate` and `poll` call GitHub; `initiate` sends a truthy scope of any JSON type as it is and `repo user:email` otherwise; `poll` forwards the device code as given |
| DeviceFlowProxy.InitiateForwardsScope | netlify/functions/github-device-flow.ts:46 | a scope of `5` is sent as `5`; `0` and `''` are replaced by `repo user:email` |
| DeviceFlowProxy.Handler | netlify/functions/github-device-flow.ts:5-115 | every response allows any origin and is 200, 400, 405 or 500; 405 with 'Method not allowed' iff the method is not POST; 400 iff the body parses to no known action |
| DeviceFlowProxy.OptionsIsRefused | netlify/functions/github-device-flow.ts:7-30 | an OPTIONS request gets 405, never the 200 preflight |
| DeviceFlowProxy.EmptyBodyIsInvalidAction | netlify/functions/github-device-flow.ts:33-100 | a POST without a body gets 400 |
| DeviceFlowProxy.InitiateOutcome | netlify/functions/github-device-flow.ts:36-63 | `initiate` relays the upstream JSON with 200 iff upstream is ok, else 500 with 'Failed to initiate device flow: ' plus the status text |
| DeviceFlowProxy.PollIgnoresUpstreamStatus | netlify/functions/github-device-flow.ts:66-90 | `poll` answers 200 with the upstream JSON whatever the upstream status |
| DeviceFlowProxy.UpstreamFailure | netlify/functions/github-device-flow.ts:36-113 | for a known action, a throwing upstream `fetch` or an unreadable upstream JSON (on `initiate` once the reply is ok) gives 500 with the error's message, or 'Internal server error' for a non-`Error` |
| DeviceFlowProxy.MalformedBody | netlify/functions/github-device-flow.ts:101-113 | a body `JSON.parse` rejects gives 500 with the parser's message |
| Auth.RestoreSessionIff | src/hooks/useGitHubAuth.ts:21-43 | restore signs in iff both keys hold values and the user parses; loading ends in every case; an unparseable user removes both keys and nothing else |
| Auth.SessionRoundTrip | src/hooks/useGitHubAuth.ts:82-91 | what a successful poll stores is restored as the same signed-in state |
| Auth.PollFailure | src/hooks/useGitHubAuth.ts:95-131 | pending reschedules after the interval, slow-down after the interval plus 5000 ms, and nothing else reschedules; `EXPIRED_TOKEN` and `ACCESS_DENIED` stop with their messages, any other `Error` stops with its own message, and a non-`Error` stops with the error left unchanged |
| Auth.DecidePoll | src/hooks/useGitHubAuth.ts:67-132 | the deadline test `now >= expiresAt` comes first; signing in happens iff before the deadline both the token and the user requests return; before the deadline, a throw from either request is decided by `PollFailure`; every reschedule waits the interval or the interval plus 5000 ms |
| Auth.ExpiredPollMakesNoRequest | src/hooks/useGitHubAuth.ts:68-76 | past the deadline the replies do not matter: the outcome is expiry |
| Auth.PollErrorCodes | src/hooks/useGitHubAuth.ts:95-131 | before the deadline, `authorization_pending` and `slow_down` reschedule, `expired_token` and `access_denied` stop with their messages, other codes stop with the token error message, which starts 'Authentication failed: ' |
| Auth.PollStopsOnFailure | src/hooks/useGitHubAuth.ts:78-130 | before the deadline, a refused user lookup stops with 'Failed to get user info: ' plus the API message; a thrown `Error` such as a network `TypeError` stops with its own message; a non-`Error` stops with the error unchanged |
| Auth.RunFrom | src/hooks/useGitHubAuth.ts:67-134 | a run of the timer chain has at most one event per reply |
| Auth.RunFromShape | src/hooks/useGitHubAuth.ts:64-134 | in every run only the last event stops; each wait is the interval or the interval plus 5000 ms; an event is the expiry iff it fires at or after the deadline; events fire at least an interval apart |
| Auth.RunFromBound | src/hooks/useGitHubAuth.ts:68-76 | fewer than `(expiresAt - now) / interval` polls reschedule, so every run ends |
| Auth.RunPendingPendingSuccess | src/hooks/useGitHubAuth.ts:79-99 | two pending replies and a token give polls one interval apart, the third signing in |
| Auth.RunSlowDownThenPending | src/hooks/useGitHubAuth.ts:97-103 | `slow_down` lengthens only the next wait; the base interval does not grow |
| Auth.AuthController.constructor | src/hooks/useGitHubAuth.ts:9-18 | signed out, loading, no flow, not polling, no timer, over the given storage |
| Auth.AuthController.RestoreSession | src/hooks/useGitHubAuth.ts:21-43 | the auth state and storage become those `RestoredAuth`/`RestoredStorage` give; flow, polling and timer unchanged |
| Auth.AuthController.BeginDeviceFlow | src/hooks/useGitHubAuth.ts:45-47 | before the device-code reply: loading, with no error; nothing else changes |
| Auth.AuthController.FinishDeviceFlow | src/hooks/useGitHubAuth.ts:48-57 | a returned flow is stored; a failure keeps the old flow and records the message or 'Failed to start authentication'; loading ends either way |
| Auth.AuthController.StartDeviceFlow | src/hooks/useGitHubAuth.ts:45-58 | a returned flow is stored and the error cleared; a failure keeps the old flow and records the message or 'Failed to start authentication'; loading ends either way |
| Auth.AuthController.StartPolling | src/hooks/useGitHubAuth.ts:60-65 | a no-op without a flow or while polling; otherwise polling starts and the first poll is due one interval (`interval*1000`) later, with deadline `now + expires_in*1000` |
| Auth.AuthController.Poll | src/hooks/useGitHubAuth.ts:67-132 | the outcome is `DecidePoll`'s; signing in stores token and user and sets the signed-in state; a reschedule changes only the timer's delay; every other outcome ends polling and drops the flow, expiry and a reported failure setting their message |
| Auth.AuthController.RunPolling | src/hooks/useGitHubAuth.ts:67-134 | the loop's trace is exactly `RunFrom`; the timer is gone iff the last event stopped; a chain still waiting has changed only its timer; a stopped chain has ended polling and dropped the flow, and its last poll decided the rest: sign-in stores the token and user, expiry shows 'Authentication expired. Please try again.', any other stop shows its error or keeps the old one, and storage changes only on sign-in |
| Auth.AuthController.Logout | src/hooks/useGitHubAuth.ts:137-149 | both keys removed, signed out, no flow, not polling; the pending timer is not cancelled |
| Auth.AuthController.ClearError | src/hooks/useGitHubAuth.ts:151-153 | only the error changes |
| MetadataHook.RefusedUrlMessage | src/hooks/useMetadata.ts:13 | the validator's reason, or 'Invalid URL' when it gave none |
| MetadataHook.CatchMessage | src/hooks/useMetadata.ts:41-50 | a `TypeError` mentioning `fetch` becomes the unreachable-URL hint; another `Error` keeps its message; a non-`Error` gets 'Failed to fetch or parse metadata' |
| MetadataHook.LoadMetadataSucceedsIff | src/hooks/useMetadata.ts:20-40 | the load returns iff the reply is ok, its text is read, all four tags exist and both checks pass; the result is then `parseMetadata` of the tags |
| MetadataHook.RefusedPageMessage | src/hooks/useMetadata.ts:23-25 | a reply that is not ok is reported as 'Failed to fetch HTML: <status> <statusText>' |
| MetadataHook.MissingTagsMessage | src/hooks/useMetadata.ts:29-32 | a page without all four tags is reported as having no metadata |
| MetadataHook.InvalidTagsMessage | src/hooks/useMetadata.ts:34-49 | a `parseMetadata` failure is a plain `Error`, surfaced with its own message |
| MetadataHook.NetworkFailureMessage | src/hooks/useMetadata.ts:44-46 | `TypeError: Failed to fetch` becomes the unreachable-URL hint |
| MetadataHook.LoadResultXorError | src/hooks/useMetadata.ts:10-56 | a load leaves a result iff it leaves no error |
| MetadataHook.RefusedPageLoad | src/hooks/useMetadata.ts:20-54 | for a valid URL whose reply is not ok, the load yields nothing and records the status line |
| MetadataHook.MetadataLoader.constructor | src/hooks/useMetadata.ts:7-8 | not loading, no error |
| MetadataHook.MetadataLoader.BeginLoad | src/hooks/useMetadata.ts:11-18 | a refused URL records its message and leaves `isLoading` alone; a valid one sets loading and clears the error |
| MetadataHook.MetadataLoader.FinishLoad | src/hooks/useMetadata.ts:20-55 | loading ends on every path; a failure records `CatchMessage` of what was thrown |
| MetadataHook.MetadataLoader.FetchAndParseMetadata | src/hooks/useMetadata.ts:10-56 | result and error are `LoadResult`/`LoadError`; `isLoading` ends false after a request and is untouched for a refused URL |
| MetadataHook.MetadataLoader.ClearError | src/hooks/useMetadata.ts:58-60 | only the error changes |
| GitHubApiHook.ApiClient.constructor | src/hooks/useGitHubAPI.ts:5-7 | not loading, no error, with the given token |
| GitHubApiHook.ApiClient.BeginCall | src/hooks/useGitHubAPI.ts:14-20 | without a token, 'No authentication token available' and no call, `isLoading` unchanged; otherwise loading with no error |
| GitHubApiHook.ApiClient.FinishCall | src/hooks/useGitHubAPI.ts:22-31 | loading ends; the value or null is returned; a failure records the thrown message or the fallback |
| GitHubApiHook.ApiClient.FetchFile | src/hooks/useGitHubAPI.ts:9-32 | without a token nothing is requested; otherwise the result and error are those of `GetFile` with 'Failed to fetch file' as fallback |
| GitHubApiHook.ApiClient.UpdateFileContent | src/hooks/useGitHubAPI.ts:34-60 | the same for `UpdateFile` with 'Failed to update file' |
| GitHubApiHook.ApiClient.ClearError | src/hooks/useGitHubAPI.ts:62-64 | only the error changes |
| EditConfirmation.FindMarker | src/components/screens/EditConfirmationScreen.tsx:69 | `findIndex` returns the first line containing the marker, or none when no line does |
| EditConfirmation.Slice | src/components/screens/EditConfirmationScreen.tsx:72 | `slice` with bounds in range is the subsequence between them |
| EditConfirmation.Preview | src/components/screens/EditConfirmationScreen.tsx:68-72 | the preview has at most seven lines |
| EditConfirmation.PreviewAroundMarker | src/components/screens/EditConfirmationScreen.tsx:68-72 | with the marker on line i, the preview is lines `[max(0,i-3), min(n,i+4))` and holds the marker line |
| EditConfirmation.PreviewWithoutMarker | src/components/screens/EditConfirmationScreen.tsx:68-72 | with no marker line, the preview is the first (at most) three lines |
| EditConfirmation.CommitMessageLines | src/components/screens/EditConfirmationScreen.tsx:49-51 | the message's lines are the subject naming the path, an empty line, and the body naming the author |
| EditConfirmation.CallRequest | src/utils/github.ts:115-131 | the `PUT` sent for a call goes to the call's file and carries exactly its message, its encoded content and its `sha` |
| EditConfirmation.EditScreen.constructor | src/components/screens/EditConfirmationScreen.tsx:20-24 | empty contents and `sha`, nothing loaded, not editing, the confirm button disabled, with a fresh API hook over the token |
| EditConfirmation.EditScreen.BeginLoadFile | src/components/screens/EditConfirmationScreen.tsx:26-30 | starts a request iff there is a token and no file is loaded; then the hook is loading with no error, and the loading spinner shows |
| EditConfirmation.EditScreen.FinishLoadFile | src/components/screens/EditConfirmationScreen.tsx:30-37 | loading ends and a failure records its message; decodable content is stored with its stamped form and `sha`, the spinner goes, and confirm is disabled only for an empty file or while editing; a failed load changes no screen field |
| EditConfirmation.EditScreen.LoadFile | src/components/screens/EditConfirmationScreen.tsx:26-41 | nothing happens without a token or once loaded; a load that yields decodable content stores it, its stamped form and its `sha`, and leaves the confirm button disabled only for an empty file or while editing; a failed load changes none of the screen's fields |
| EditConfirmation.EditScreen.BeginConfirmEdit | src/components/screens/EditConfirmationScreen.tsx:43-59 | a no-op without token or user; otherwise the update call carries the stamped text, the load-time `sha` and the commit message, and while it runs the edit is marked, both buttons are disabled, the hook is loading and the error is cleared |
| EditConfirmation.EditScreen.FinishConfirmEdit | src/components/screens/EditConfirmationScreen.tsx:59-65 | the commit page is passed on only after a successful update; a failure records its message; editing ends, so the back button is enabled and confirm is disabled iff no text is loaded |
| EditConfirmation.EditScreen.HandleConfirmEdit | src/components/screens/EditConfirmationScreen.tsx:43-66 | a no-op without token or user; otherwise the stamped text is sent with the `sha` read at load and the commit message; the commit page is passed on only after a successful update; editing ends, so the button is enabled again iff text was loaded |
| EditConfirmation.EditScreen.ConfirmDisabled | src/components/screens/EditConfirmationScreen.tsx:182 | the confirm button is disabled while no (or empty) text is loaded or an edit runs; the constructor, `LoadFile`, `BeginConfirmEdit` (disabled while the edit runs) and `FinishConfirmEdit` state its value after each step |
| ErrorScreen.GetErrorSuggestions | src/components/screens/ErrorScreen.tsx:14-53 | the list is the advice of each matched category in test order, or the generic advice when none matched |
| ErrorScreen.SuggestionCount | src/components/screens/ErrorScreen.tsx:17-52 | 3 lines each for fetch, metadata, authentication and not-found, 2 for rate limits, summed over the matched categories, or 3 generic ones; between 2 and 14 lines |
| ErrorScreen.GenericIffUnclassified | src/components/screens/ErrorScreen.tsx:46-52 | the generic advice appears iff no category matched |
| ErrorScreen.RateLimitAdvice | src/components/screens/ErrorScreen.tsx:35-58 | a message containing `rate limit` is temporary and gets the wait advice |
| ErrorScreen.TemporaryErrorWords | src/components/screens/ErrorScreen.tsx:56-58 | a message that mentions `network` or `timeout`, in any mix of cases, is flagged as temporary |
| ErrorScreen.NotTemporaryError | src/components/screens/ErrorScreen.tsx:56-58 | a message whose lower-cased text holds none of `rate limit`, `network`, `timeout` is not flagged |
| ErrorScreen.NetworkErrorAdvice | src/components/screens/ErrorScreen.tsx:46-58 | a network failure in no suggestion category shows the temporary notice with the generic advice, first checking the internet connection |
| ErrorScreen.Buttons | src/components/screens/ErrorScreen.tsx:123-130 | "Try Again" iff `showRetry` and a retry callback; "Start Over" always, last |
| ErrorScreen.NotFoundExampleWords | src/components/screens/ErrorScreen.tsx:17-44 | the lower-cased 'Failed to fetch HTML: 404 Not Found' contains `fetch` and `404` and none of `metadata`, `authentication`, `denied`, `rate limit` |
| ErrorScreen.NotFoundExampleCategories | src/components/screens/ErrorScreen.tsx:17-44 | 'Failed to fetch HTML: 404 Not Found' falls in the fetch and not-found categories only |
| ErrorScreen.FetchAndNotFoundSuggestions | src/components/screens/ErrorScreen.tsx:17-52 | a message in exactly those two categories gets the fetch advice, then the not-found advice |
| ErrorScreen.NotFoundExampleSuggestions | src/components/screens/ErrorScreen.tsx:17-44 | 'Failed to fetch HTML: 404 Not Found' gets six suggestions, fetch advice first |
| UrlInput.CheckSubmission | src/components/screens/UrlInputScreen.tsx:17-32 | blank input gives 'Please enter a URL', unparseable input 'Please enter a valid URL'; otherwise the trimmed, non-blank text is submitted |
| UrlInput.DisabledIffEmptyRefusal | src/components/screens/UrlInputScreen.tsx:86 | the button is disabled iff a submit would be refused as empty |
| UrlInput.FormAcceptsValidatedUrl | src/components/screens/UrlInputScreen.tsx:20-31 | whatever `validateUrl` accepts the form submits, trimmed; a submitted value is never refused as blank |
| UrlInput.FormIgnoresProtocol | src/components/screens/UrlInputScreen.tsx:25-31 | a parseable `ftp:` URL is submitted by the form and then refused by `validateUrl` |
| UrlInput.UrlInputScreen.constructor | src/components/screens/UrlInputScreen.tsx:14-15 | empty text, no message |
| UrlInput.UrlInputScreen.HandleSubmit | src/components/screens/UrlInputScreen.tsx:17-32 | the submitted value and the message are those of `CheckSubmission`; the typed text is kept |
| UrlInput.UrlInputScreen.HandleUrlChange | src/components/screens/UrlInputScreen.tsx:34-39 | the text is replaced and a present message cleared |
| App.BackUndoesForward | src/App.tsx:60-74 | back undoes one forward step from the three middle screens and changes no other screen |
| App.Render | src/App.tsx:82-148 | a metadata error on the first screen shows a retryable error; else a global error or the error screen a non-retryable one; the metadata, edit and success screens draw nothing without metadata |
| App.Wizard.constructor | src/App.tsx:13-24 | the wizard starts on the URL screen with nothing stored |
| App.Wizard.BeginUrlSubmit | src/App.tsx:26-29 | the URL is kept and both errors cleared |
| App.Wizard.FinishUrlSubmit | src/App.tsx:31-35 | the wizard moves on, storing the metadata, only when some was returned |
| App.Wizard.HandleUrlSubmit | src/App.tsx:26-36 | the loader's error is `LoadError`; the wizard moves to the review screen with `LoadResult` iff it is some, else screen and metadata stay; loading is over after a request, and a URL refused before any request leaves the loading flag unchanged |
| App.Wizard.HandleMetadataContinue | src/App.tsx:38-40 | moves to the sign-in screen, nothing else changes |
| App.Wizard.HandleAuthenticationComplete | src/App.tsx:42-44 | moves to the edit screen, nothing else changes |
| App.Wizard.HandleEditComplete | src/App.tsx:46-49 | stores the commit page and moves to the success screen |
| App.Wizard.HandleStartOver | src/App.tsx:51-58 | back to the initial state from anywhere, where the URL screen is drawn |
| App.Wizard.HandleBack | src/App.tsx:60-74 | the screen becomes `BackScreen` of the old one, nothing else changes |
| App.Wizard.HandleError | src/App.tsx:76-79 | the error page shows the given message |
| App.Wizard.HandleRetry | src/App.tsx:88-91 | the metadata error is cleared and the first screen shown |
| Walkthrough.NotFoundStatusLine | src/hooks/useMetadata.ts:24 | a 404 'Not Found' reply is reported as 'Failed to fetch HTML: 404 Not Found' |
| Walkthrough.NotFoundPageFlow | src/hooks/useMetadata.ts:20-54 | a valid URL whose page is refused with 404 yields no metadata, leaves that status line as the error, and the wizard draws it as a retryable error |

## Left out

- **Network I/O.** Every `fetch` (GitHub's API, the page request, the
  proxy's upstream call) is a parameter: the reply it produced or the
  exception it threw. `response.json()`/`text()` are part of that reply.
- **Foreign parsers and codecs.** These are parameters, not models:
  - `new URL(...)`: an optional protocol.
  - The DOM parser: a map from meta name to optional `content`.
  - `JSON.parse`/`JSON.stringify` of the saved user and of the proxy's body.
  - `atob`, `btoa`, `encodeURIComponent` and `unescape`.

  So the model does not show that the screen decodes one byte per
  character with `atob` while `updateFile` re-encodes UTF-8. Only ASCII
  files survive that round trip unchanged.
- **Time.** `Date.now()` is a `now` parameter and `new Date().toISOString()`
  a `timestamp` parameter. `setTimeout` is the `timer` field, holding the
  delay of the one pending poll. How late each poll fires is an input
  sequence to `RunPolling`.
- **`console.error`** in the proxy, and the build configuration.
- **React semantics.**
  - Each handler is one sequential step. Handlers may be called in any
    order.
  - Stale closures, batched `setState`, `useEffect` re-runs and
    interleavings between handlers are not modelled.
  - A second `startPolling` after `logout` replaces the pending timer. In
    the browser, the old chain of polls would keep running beside the new
    one.
- **Unicode case mapping.** `toLowerCase` is modelled for ASCII letters
  only. `trim` uses the full ECMAScript white-space set.
- **Presentation.** JSX, styling, `Layout`, `Input`, and the permission,
  metadata-review, success and sign-in screens only display state or pass
  callbacks on. `App.Render` names the screen that is drawn, not its markup.
- **The `!parsedMetadata` branch of `useMetadata`** (src/hooks/useMetadata.ts:35-37)
  is left out. `Metadata.ParseMetadataReturnsIff` shows `parseMetadata`
  never returns null.
- **The `scope` argument of `startDeviceFlow`** is dropped.
  `initiateDeviceFlow` takes no parameter and always asks for
  `repo user:email`.
- **`handleError` is never wired up.** src/App.tsx:76-79 defines it, but
  no screen receives it, so in the source nothing sets `globalError`.
  `App.Wizard.HandleError` models the handler anyway. It is the model's only
  way to set `globalError` or reach the error screen, a path the running
  wizard never takes.
- **Tag names.** The URL screen's help text shows `bscomment:` tags, but
  the extractor reads `markpub:` names. The model reads the extractor's
  names.
- **Numbers.** JavaScript numbers (intervals, deadlines, statuses) are
  unbounded integers; there is no floating point.
- ErrorScreen.GetErrorSuggestions: appends a category's lines in one step
  where the source pushes them one at a time; the resulting list is the same.
- App.Wizard.HandleUrlSubmit: the state between the request and the reply
  (loading, errors cleared) is shown by `BeginUrlSubmit` and
  `MetadataHook.MetadataLoader.BeginLoad`, not as a state other handlers can
  observe in between.
- EditConfirmation.Preview: its own contract gives only the seven-line
  bound. The window itself is stated by `PreviewAroundMarker` and
  `PreviewWithoutMarker`.
- Auth.AuthController.RunPolling: runs the chain only as far as the given
  replies. A chain still waiting when they run out keeps its timer.
