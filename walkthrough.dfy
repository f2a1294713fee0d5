/**
 * One path through the whole wizard, from the submitted URL to the advice
 * on the error page: what a page refused with `404 Not Found` leads to.
 */
module Walkthrough {
  import opened Common
  import opened Text
  import opened Types
  import opened Validation
  import opened MetadataHook
  import opened ErrorScreen
  import opened App

  /** The status line of a 404 reply is the example message. */
  lemma NotFoundStatusLine(reply: Page)
    requires reply.status == 404 && reply.statusText == "Not Found"
    ensures FetchFailedMessage(reply) == NotFoundExample
  {
    assert IntToString(404) == "404" by {
      assert NatToString(40) == "40";
    }
  }

  /** A page refused with `404 Not Found` stops the wizard on the first
      screen with that status line as a retryable error; the advice its
      page gives is `NotFoundExampleSuggestions`. */
  lemma NotFoundPageFlow(url: string, parseUrl: UrlParser, reply: Page, parseHtml: HtmlParser, isLoading: bool,
                         globalError: Option<string>, metadata: Option<ParsedMetadata>, commitUrl: string)
    requires ValidateUrl(url, parseUrl).isValid
    requires reply.status == 404 && reply.statusText == "Not Found"
    ensures LoadResult(url, parseUrl, Returned(reply), parseHtml) == None
    ensures LoadError(url, parseUrl, Returned(reply), parseHtml) == Some(NotFoundExample)
    ensures Render(UrlInput, Some(NotFoundExample), isLoading, globalError, metadata, commitUrl)
      == ErrorView(NotFoundExample, true)
  {
    RefusedPageLoad(url, parseUrl, reply, parseHtml);
    NotFoundStatusLine(reply);
  }
}
