/**
 * The `useMetadata` hook of src/hooks/useMetadata.ts: an `isLoading` flag
 * and an `error` message kept around one load of an HTML page whose
 * bsComment meta tags are read and parsed. `fetch` and the DOM parser are
 * parameters: the reply the page request produced, and the meta tags of a
 * parsed document.
 */
module MetadataHook {
  import opened Common
  import opened Text
  import opened Types
  import opened Validation
  import opened Metadata

  /** The reply to `fetch(url)`: its status line, and what `response.text()`
      produced. */
  datatype Page = Page(status: int, statusText: string, text: Outcome<string>) {
    /** `response.ok` */
    predicate Ok() {
      200 <= status <= 299
    }
  }

  /** `new DOMParser().parseFromString(html, 'text/html')`, seen through its
      meta tags. */
  type HtmlParser = string -> MetaTags

  const InvalidUrlFallback := "Invalid URL"
  const NoMetadataMessage := "No bsComment metadata found in the HTML file. Please ensure the file contains the required meta tags."
  const UnreachableMessage := "Unable to access the URL. Please check if the URL is correct and accessible."
  const DefaultLoadMessage := "Failed to fetch or parse metadata"

  /** `Failed to fetch HTML: ${status} ${statusText}` */
  function FetchFailedMessage(page: Page): string {
    "Failed to fetch HTML: " + IntToString(page.status) + " " + page.statusText
  }

  /** The message recorded for a URL the validator refused:
      `urlValidation.error || 'Invalid URL'`. */
  function RefusedUrlMessage(v: ValidationResult): (r: string)
    ensures Truthy(v.error) ==> r == v.error.value
    ensures !Truthy(v.error) ==> r == InvalidUrlFallback
  {
    if Truthy(v.error) then v.error.value else InvalidUrlFallback
  }

  /** The `try` block, once the URL is valid: the parsed metadata, or what
      was thrown on the way. The `!parsedMetadata` test is left out, since
      `parseMetadata` returns a value whenever it does not throw. */
  function LoadMetadata(page: Outcome<Page>, parseHtml: HtmlParser): (r: Outcome<ParsedMetadata>) {
    match page
    case Threw(e) => Threw(e)
    case Returned(reply) =>
      if !reply.Ok() then Fail(FetchFailedMessage(reply))
      else
        match reply.text
        case Threw(e) => Threw(e)
        case Returned(html) =>
          match ExtractMetadataFromHtml(parseHtml(html))
          case None => Fail(NoMetadataMessage)
          case Some(metadata) => ParseMetadata(metadata)
  }

  /** The `catch` block's message: a `TypeError` that mentions `fetch` (a
      network failure) becomes a hint to check the URL, any other `Error`
      keeps its message, and a thrown non-`Error` gets the fallback. */
  function CatchMessage(e: Exception): (r: string)
    ensures e.NonErrorValue? ==> r == DefaultLoadMessage
    ensures e.JsError? ==>
      (r == UnreachableMessage <== e.name == "TypeError" && exists i :: OccursAt(e.message, "fetch", i))
    ensures e.JsError? && (e.name != "TypeError" || forall i :: !OccursAt(e.message, "fetch", i)) ==> r == e.message
  {
    match e
    case NonErrorValue => DefaultLoadMessage
    case JsError(name, message) =>
      ContainsIff(message, "fetch");
      if name == "TypeError" && Contains(message, "fetch") then UnreachableMessage else message
  }

  /** The page loads exactly when the request answered ok, its text could be
      read, all four tags are present and both of them validate; the result
      is then `parseMetadata` of the tags. */
  lemma LoadMetadataSucceedsIff(page: Outcome<Page>, parseHtml: HtmlParser)
    ensures LoadMetadata(page, parseHtml).Returned? <==>
      && page.Returned? && page.value.Ok() && page.value.text.Returned?
      && HasAllTags(parseHtml(page.value.text.value))
      && var m := ExtractMetadataFromHtml(parseHtml(page.value.text.value)).value;
         ValidateGitHubRepo(m.repo).isValid && ValidateFilePath(m.filepath).isValid
    ensures LoadMetadata(page, parseHtml).Returned? ==>
      LoadMetadata(page, parseHtml) == ParseMetadata(ExtractMetadataFromHtml(parseHtml(page.value.text.value)).value)
  {
    if page.Returned? && page.value.Ok() && page.value.text.Returned? && HasAllTags(parseHtml(page.value.text.value)) {
      ParseMetadataReturnsIff(ExtractMetadataFromHtml(parseHtml(page.value.text.value)).value);
    }
  }

  /** A refused request is reported with its status line, e.g.
      `Failed to fetch HTML: 404 Not Found`: it is a plain `Error`, so the
      word `fetch` in it does not turn it into the network hint. */
  lemma RefusedPageMessage(reply: Page, parseHtml: HtmlParser)
    requires !reply.Ok()
    ensures LoadMetadata(Returned(reply), parseHtml).Threw?
    ensures CatchMessage(LoadMetadata(Returned(reply), parseHtml).exception) == FetchFailedMessage(reply)
  {
  }

  /** A page without all four tags is reported as lacking metadata. */
  lemma MissingTagsMessage(reply: Page, parseHtml: HtmlParser)
    requires reply.Ok() && reply.text.Returned?
    requires !HasAllTags(parseHtml(reply.text.value))
    ensures CatchMessage(LoadMetadata(Returned(reply), parseHtml).exception) == NoMetadataMessage
  {
  }

  /** When the tags are present but fail validation, the error is
      `parseMetadata`'s own message (which names the repository check
      first): it throws a plain `Error`, which the `catch` passes through. */
  lemma InvalidTagsMessage(reply: Page, parseHtml: HtmlParser, m: BsCommentMetadata)
    requires reply.Ok() && reply.text.Returned?
    requires ExtractMetadataFromHtml(parseHtml(reply.text.value)) == Some(m)
    requires ParseMetadata(m).Threw?
    ensures LoadMetadata(Returned(reply), parseHtml) == ParseMetadata(m)
    ensures ParseMetadata(m).exception.JsError? && ParseMetadata(m).exception.name == "Error"
    ensures CatchMessage(ParseMetadata(m).exception) == ParseMetadata(m).exception.message
  {
    ParseMetadataThrowsError(m);
  }

  /** A network failure (`TypeError: Failed to fetch`) is reported as an
      unreachable URL. */
  lemma NetworkFailureMessage(parseHtml: HtmlParser)
    ensures CatchMessage(LoadMetadata(Threw(JsError("TypeError", "Failed to fetch")), parseHtml).exception) == UnreachableMessage
  {
    assert OccursAt("Failed to fetch", "fetch", 10);
  }

  /** What `fetchAndParseMetadata(url)` returns: nothing for a refused URL,
      else what the load returned. */
  function LoadResult(url: string, parseUrl: UrlParser, page: Outcome<Page>, parseHtml: HtmlParser): Option<ParsedMetadata> {
    if ValidateUrl(url, parseUrl).isValid then ValueOrNull(LoadMetadata(page, parseHtml)) else None
  }

  /** The error `fetchAndParseMetadata(url)` leaves: the validator's reason,
      the `catch` block's message, or none after a successful load. */
  function LoadError(url: string, parseUrl: UrlParser, page: Outcome<Page>, parseHtml: HtmlParser): Option<string> {
    var v := ValidateUrl(url, parseUrl);
    if !v.isValid then Some(RefusedUrlMessage(v))
    else match LoadMetadata(page, parseHtml)
      case Returned(_) => None
      case Threw(e) => Some(CatchMessage(e))
  }

  /** A load leaves a result or an error, never both and never neither. */
  lemma LoadResultXorError(url: string, parseUrl: UrlParser, page: Outcome<Page>, parseHtml: HtmlParser)
    ensures LoadResult(url, parseUrl, page, parseHtml).Some? <==> LoadError(url, parseUrl, page, parseHtml).None?
  {
  }

  /** For a valid URL whose page is refused, the load gives nothing and
      leaves the status line as its error. */
  lemma RefusedPageLoad(url: string, parseUrl: UrlParser, reply: Page, parseHtml: HtmlParser)
    requires ValidateUrl(url, parseUrl).isValid && !reply.Ok()
    ensures LoadResult(url, parseUrl, Returned(reply), parseHtml) == None
    ensures LoadError(url, parseUrl, Returned(reply), parseHtml) == Some(FetchFailedMessage(reply))
  {
    RefusedPageMessage(reply, parseHtml);
  }

  /** The hook's state. */
  class MetadataLoader {
    var isLoading: bool
    var error: Option<string>

    constructor()
      ensures !isLoading && error == None
    {
      isLoading := false;
      error := None;
    }

    /** The synchronous part of `fetchAndParseMetadata`, up to `await fetch`,
        given `validateUrl(url)`: a refused URL is recorded and nothing is
        requested; otherwise the hook shows it is loading, with no error. */
    method BeginLoad(urlValidation: ValidationResult) returns (started: bool)
      modifies this
      ensures started <==> urlValidation.isValid
      ensures started ==> isLoading && error == None
      ensures !started ==> error == Some(RefusedUrlMessage(urlValidation)) && isLoading == old(isLoading)
    {
      if !urlValidation.isValid {
        error := Some(RefusedUrlMessage(urlValidation));
        started := false;
      } else {
        isLoading := true;
        error := None;
        started := true;
      }
    }

    /** The part after the request: loading ends on every path, and a
        failure is recorded through `CatchMessage`. */
    method FinishLoad(page: Outcome<Page>, parseHtml: HtmlParser) returns (r: Option<ParsedMetadata>)
      modifies this
      ensures !isLoading
      ensures r == ValueOrNull(LoadMetadata(page, parseHtml))
      ensures r.Some? ==> error == old(error)
      ensures r.None? ==> error == Some(CatchMessage(LoadMetadata(page, parseHtml).exception))
    {
      var outcome := LoadMetadata(page, parseHtml);
      match outcome
      case Returned(parsed) =>
        isLoading := false;
        r := Some(parsed);
      case Threw(e) =>
        error := Some(CatchMessage(e));
        isLoading := false;
        r := None;
    }

    /** `fetchAndParseMetadata(url)`, where `page` is what `fetch(url)`
        produces if the request is made. */
    method FetchAndParseMetadata(url: string, parseUrl: UrlParser, page: Outcome<Page>, parseHtml: HtmlParser)
      returns (r: Option<ParsedMetadata>)
      modifies this
      ensures r == LoadResult(url, parseUrl, page, parseHtml)
      ensures error == LoadError(url, parseUrl, page, parseHtml)
      ensures ValidateUrl(url, parseUrl).isValid ==> !isLoading
      ensures !ValidateUrl(url, parseUrl).isValid ==> isLoading == old(isLoading)
    {
      var urlValidation := ValidateUrl(url, parseUrl);
      var started := BeginLoad(urlValidation);
      if !started {
        return None;
      }
      r := FinishLoad(page, parseHtml);
    }

    /** `clearError` */
    method ClearError()
      modifies this
      ensures error == None && isLoading == old(isLoading)
    {
      error := None;
    }
  }
}
