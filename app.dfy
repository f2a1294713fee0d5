/**
 * The wizard of src/App.tsx: which screen is current, the values carried
 * from one screen to the next, the handlers that move between screens, and
 * which view is drawn for a given state.
 */
module App {
  import opened Common
  import opened Text
  import opened Types
  import opened Validation
  import opened MetadataHook

  const UnexpectedErrorMessage := "An unexpected error occurred"

  /** The screen the wizard moves on to from each screen, in the order the
      handlers `handleUrlSubmit`, `handleMetadataContinue`,
      `handleAuthenticationComplete` and `handleEditComplete` advance it. */
  function Successor(screen: AppScreen): Option<AppScreen> {
    match screen
    case UrlInput => Some(MetadataReview)
    case MetadataReview => Some(GitHubAuth)
    case GitHubAuth => Some(EditConfirmation)
    case EditConfirmation => Some(Success)
    case _ => None
  }

  /** `handleBack`'s switch. */
  function BackScreen(screen: AppScreen): AppScreen {
    match screen
    case MetadataReview => UrlInput
    case GitHubAuth => MetadataReview
    case EditConfirmation => GitHubAuth
    case _ => screen
  }

  /** Going back undoes exactly one forward step from the three middle
      screens, and changes nothing anywhere else: not from the first
      screen, the success page, the error page or the unused permission
      screen. */
  lemma BackUndoesForward(screen: AppScreen)
    ensures screen in {MetadataReview, GitHubAuth, EditConfirmation} ==>
      Successor(BackScreen(screen)) == Some(screen)
    ensures screen !in {MetadataReview, GitHubAuth, EditConfirmation} ==> BackScreen(screen) == screen
    ensures Successor(screen).Some? && Successor(screen).value != Success ==>
      BackScreen(Successor(screen).value) == screen
  {
  }

  /** What the wizard draws. An error page says whether it offers "Try
      Again"; the other views carry what their screen is given. */
  datatype View =
    | ErrorView(message: string, retry: bool)
    | UrlInputView(isLoading: bool)
    | MetadataReviewView(metadata: ParsedMetadata)
    | GitHubAuthView
    | EditConfirmationView(metadata: ParsedMetadata)
    | SuccessView(metadata: ParsedMetadata, commitUrl: string)
    | Blank

  /** The render: a metadata error on the first screen comes first and can
      be retried; then a global error or the error screen, which cannot;
      otherwise the current screen, where the three screens that show the
      metadata draw nothing without it. */
  function Render(screen: AppScreen, metadataError: Option<string>, isLoading: bool, globalError: Option<string>,
                  metadata: Option<ParsedMetadata>, commitUrl: string): (r: View)
    ensures Truthy(metadataError) && screen == UrlInput ==> r == ErrorView(metadataError.value, true)
    ensures !(Truthy(metadataError) && screen == UrlInput) && (Truthy(globalError) || screen == ErrorScreen) ==>
      r == ErrorView(if Truthy(globalError) then globalError.value else UnexpectedErrorMessage, false)
    ensures r.ErrorView? <==> (Truthy(metadataError) && screen == UrlInput) || Truthy(globalError) || screen == ErrorScreen
    ensures r.UrlInputView? ==> screen == UrlInput && r.isLoading == isLoading
    ensures r.MetadataReviewView? ==> screen == MetadataReview && metadata == Some(r.metadata)
    ensures r.GitHubAuthView? ==> screen == GitHubAuth
    ensures r.EditConfirmationView? ==> screen == EditConfirmation && metadata == Some(r.metadata)
    ensures r.SuccessView? ==> screen == Success && metadata == Some(r.metadata) && r.commitUrl == commitUrl
    ensures r == Blank <==>
      && !r.ErrorView?
      && (screen == PermissionSelection || (screen in {MetadataReview, EditConfirmation, Success} && metadata.None?))
  {
    if Truthy(metadataError) && screen == UrlInput then
      ErrorView(metadataError.value, true)
    else if Truthy(globalError) || screen == ErrorScreen then
      ErrorView(if Truthy(globalError) then globalError.value else UnexpectedErrorMessage, false)
    else
      match screen
      case UrlInput => UrlInputView(isLoading)
      case MetadataReview => if metadata.Some? then MetadataReviewView(metadata.value) else Blank
      case GitHubAuth => GitHubAuthView
      case EditConfirmation => if metadata.Some? then EditConfirmationView(metadata.value) else Blank
      case Success => if metadata.Some? then SuccessView(metadata.value, commitUrl) else Blank
      case PermissionSelection => Blank
      case ErrorScreen => Blank
  }

  /** The wizard's state; `loader` is its `useMetadata` hook. */
  class Wizard {
    var currentScreen: AppScreen
    var url: string
    var metadata: Option<ParsedMetadata>
    var commitUrl: string
    var globalError: Option<string>
    const loader: MetadataLoader

    /** No handler sets the permission screen, so the wizard never shows it. */
    predicate Valid()
      reads this
    {
      currentScreen != PermissionSelection
    }

    /** The state a fresh wizard, and one started over, is in. */
    predicate Initial()
      reads this, loader
    {
      && currentScreen == UrlInput && url == "" && metadata == None && commitUrl == ""
      && globalError == None && loader.error == None
    }

    constructor()
      ensures Initial() && Valid() && fresh(loader) && !loader.isLoading
    {
      currentScreen := UrlInput;
      url := "";
      metadata := None;
      commitUrl := "";
      globalError := None;
      loader := new MetadataLoader();
    }

    /** What is drawn now. */
    function View(): View
      reads this, loader
    {
      Render(currentScreen, loader.error, loader.isLoading, globalError, metadata, commitUrl)
    }

    /** The part of `handleUrlSubmit` before the metadata is awaited: the
        URL is kept and both errors are cleared. */
    method BeginUrlSubmit(submittedUrl: string)
      requires Valid()
      modifies this, loader
      ensures Valid()
      ensures url == submittedUrl && globalError == None && loader.error == None
      ensures loader.isLoading == old(loader.isLoading)
      ensures currentScreen == old(currentScreen) && metadata == old(metadata) && commitUrl == old(commitUrl)
    {
      url := submittedUrl;
      globalError := None;
      loader.ClearError();
    }

    /** The part after it: the wizard moves on, with the metadata, only when
        the load returned some. */
    method FinishUrlSubmit(parsedMetadata: Option<ParsedMetadata>)
      requires Valid()
      modifies this
      ensures Valid()
      ensures parsedMetadata.Some? ==> metadata == parsedMetadata && currentScreen == MetadataReview
      ensures parsedMetadata.None? ==> metadata == old(metadata) && currentScreen == old(currentScreen)
      ensures url == old(url) && globalError == old(globalError) && commitUrl == old(commitUrl)
    {
      if parsedMetadata.Some? {
        metadata := parsedMetadata;
        currentScreen := MetadataReview;
      }
    }

    /** `handleUrlSubmit(submittedUrl)`, where `page` is what `fetch` produces
        if the loader requests the page. The wizard moves on, with the
        parsed metadata, only when the load returned some; otherwise the
        screen and metadata stay and the loader holds the error. Loading is
        over once the page was requested; a URL refused before any request
        leaves the loading flag as it was. */
    method HandleUrlSubmit(submittedUrl: string, parseUrl: UrlParser, page: Outcome<Page>, parseHtml: HtmlParser)
      requires Valid()
      modifies this, loader
      ensures Valid()
      ensures url == submittedUrl && globalError == None && commitUrl == old(commitUrl)
      ensures loader.error == LoadError(submittedUrl, parseUrl, page, parseHtml)
      ensures LoadResult(submittedUrl, parseUrl, page, parseHtml).Some? ==>
        metadata == LoadResult(submittedUrl, parseUrl, page, parseHtml) && currentScreen == MetadataReview
      ensures LoadResult(submittedUrl, parseUrl, page, parseHtml).None? ==>
        metadata == old(metadata) && currentScreen == old(currentScreen)
      ensures ValidateUrl(submittedUrl, parseUrl).isValid ==> !loader.isLoading
      ensures !ValidateUrl(submittedUrl, parseUrl).isValid ==> loader.isLoading == old(loader.isLoading)
    {
      BeginUrlSubmit(submittedUrl);
      var parsedMetadata := loader.FetchAndParseMetadata(submittedUrl, parseUrl, page, parseHtml);
      FinishUrlSubmit(parsedMetadata);
    }

    /** `handleMetadataContinue` */
    method HandleMetadataContinue()
      requires Valid()
      modifies this
      ensures Valid() && currentScreen == GitHubAuth
      ensures url == old(url) && metadata == old(metadata) && commitUrl == old(commitUrl) && globalError == old(globalError)
    {
      currentScreen := GitHubAuth;
    }

    /** `handleAuthenticationComplete` */
    method HandleAuthenticationComplete()
      requires Valid()
      modifies this
      ensures Valid() && currentScreen == EditConfirmation
      ensures url == old(url) && metadata == old(metadata) && commitUrl == old(commitUrl) && globalError == old(globalError)
    {
      currentScreen := EditConfirmation;
    }

    /** `handleEditComplete(newCommitUrl)`: the commit's page is kept for
        the success screen. */
    method HandleEditComplete(newCommitUrl: string)
      requires Valid()
      modifies this
      ensures Valid() && currentScreen == Success && commitUrl == newCommitUrl
      ensures url == old(url) && metadata == old(metadata) && globalError == old(globalError)
    {
      commitUrl := newCommitUrl;
      currentScreen := Success;
    }

    /** `handleStartOver`: back to the initial state, from anywhere, where
        the first screen is drawn. */
    method HandleStartOver()
      requires Valid()
      modifies this, loader
      ensures Valid() && Initial()
      ensures loader.isLoading == old(loader.isLoading)
      ensures View() == UrlInputView(loader.isLoading)
    {
      currentScreen := UrlInput;
      url := "";
      metadata := None;
      commitUrl := "";
      globalError := None;
      loader.ClearError();
    }

    /** `handleBack` */
    method HandleBack()
      requires Valid()
      modifies this
      ensures Valid() && currentScreen == BackScreen(old(currentScreen))
      ensures url == old(url) && metadata == old(metadata) && commitUrl == old(commitUrl) && globalError == old(globalError)
    {
      match currentScreen
      case MetadataReview => currentScreen := UrlInput;
      case GitHubAuth => currentScreen := MetadataReview;
      case EditConfirmation => currentScreen := GitHubAuth;
      case _ =>
    }

    /** `handleError(error)`: the error page shows the message. */
    method HandleError(error: string)
      requires Valid()
      modifies this
      ensures Valid() && currentScreen == ErrorScreen && globalError == Some(error)
      ensures url == old(url) && metadata == old(metadata) && commitUrl == old(commitUrl)
    {
      globalError := Some(error);
      currentScreen := ErrorScreen;
    }

    /** The "Try Again" of the metadata error page: the error is cleared and
        the first screen is shown again. */
    method HandleRetry()
      requires Valid()
      modifies this, loader
      ensures Valid() && currentScreen == UrlInput && loader.error == None
      ensures loader.isLoading == old(loader.isLoading)
      ensures url == old(url) && metadata == old(metadata) && commitUrl == old(commitUrl) && globalError == old(globalError)
    {
      loader.ClearError();
      currentScreen := UrlInput;
    }
  }

}
