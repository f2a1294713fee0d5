/**
 * The error page of src/components/screens/ErrorScreen.tsx: troubleshooting
 * suggestions chosen from the words in the error message, the "temporary
 * issue" notice, and which buttons are offered.
 */
module ErrorScreen {
  import opened Text

  const FetchSuggestions := [
    "Verify the URL is correct and accessible",
    "Check if the website allows cross-origin requests",
    "Try accessing the URL directly in your browser"]
  const MetadataSuggestions := [
    "Ensure the HTML file contains the required bsComment meta tags",
    "Check that all required metadata fields are present",
    "Verify the repository URL format in the metadata"]
  const AuthSuggestions := [
    "Try authenticating with GitHub again",
    "Check that you have access to the repository",
    "Verify your GitHub permissions"]
  const RateLimitSuggestions := [
    "Wait a few minutes before trying again",
    "GitHub API rate limits reset hourly"]
  const NotFoundSuggestions := [
    "Check that the repository and file path are correct",
    "Verify the file exists in the repository",
    "Ensure the repository is not private (unless you have access)"]
  const GenericSuggestions := [
    "Check your internet connection",
    "Try refreshing the page",
    "Contact support if the problem persists"]

  /** `message.toLowerCase().includes(word)` */
  predicate Mentions(message: string, word: string) {
    Contains(ToLowerAscii(message), word)
  }

  predicate MentionsFetch(message: string) {
    Mentions(message, "fetch")
  }

  predicate MentionsMetadata(message: string) {
    Mentions(message, "metadata")
  }

  predicate MentionsAuth(message: string) {
    Mentions(message, "authentication") || Mentions(message, "denied")
  }

  predicate MentionsRateLimit(message: string) {
    Mentions(message, "rate limit")
  }

  predicate MentionsNotFound(message: string) {
    Mentions(message, "not found") || Mentions(message, "404")
  }

  /** The message falls in none of the five categories. */
  predicate Unclassified(message: string) {
    !MentionsFetch(message) && !MentionsMetadata(message) && !MentionsAuth(message)
    && !MentionsRateLimit(message) && !MentionsNotFound(message)
  }

  /** The suggestions of every category the message falls in, in the order
      the categories are tested. */
  function CategorySuggestions(message: string): seq<string> {
    (if MentionsFetch(message) then FetchSuggestions else [])
    + (if MentionsMetadata(message) then MetadataSuggestions else [])
    + (if MentionsAuth(message) then AuthSuggestions else [])
    + (if MentionsRateLimit(message) then RateLimitSuggestions else [])
    + (if MentionsNotFound(message) then NotFoundSuggestions else [])
  }

  /** What `getErrorSuggestions` returns: the matched categories' advice,
      or the generic advice when none matched. */
  function Suggestions(message: string): seq<string> {
    var matched := CategorySuggestions(message);
    if matched == [] then GenericSuggestions else matched
  }

  /** `getErrorSuggestions`: the categories are tested one after the other,
      each pushing its advice (its list, in order) onto the list; the
      generic advice is pushed when the list is still empty. */
  method GetErrorSuggestions(errorMessage: string) returns (suggestions: seq<string>)
    ensures suggestions == Suggestions(errorMessage)
  {
    suggestions := [];
    if MentionsFetch(errorMessage) {
      suggestions := suggestions + FetchSuggestions;
    }
    assert suggestions == (if MentionsFetch(errorMessage) then FetchSuggestions else []);
    ghost var before := suggestions;
    if MentionsMetadata(errorMessage) {
      suggestions := suggestions + MetadataSuggestions;
    }
    assert suggestions == before + (if MentionsMetadata(errorMessage) then MetadataSuggestions else []);
    before := suggestions;
    if MentionsAuth(errorMessage) {
      suggestions := suggestions + AuthSuggestions;
    }
    assert suggestions == before + (if MentionsAuth(errorMessage) then AuthSuggestions else []);
    before := suggestions;
    if MentionsRateLimit(errorMessage) {
      suggestions := suggestions + RateLimitSuggestions;
    }
    assert suggestions == before + (if MentionsRateLimit(errorMessage) then RateLimitSuggestions else []);
    before := suggestions;
    if MentionsNotFound(errorMessage) {
      suggestions := suggestions + NotFoundSuggestions;
    }
    assert suggestions == before + (if MentionsNotFound(errorMessage) then NotFoundSuggestions else []);
    assert suggestions == CategorySuggestions(errorMessage);
    if |suggestions| == 0 {
      suggestions := suggestions + GenericSuggestions;
    }
  }

  /** The number of suggestions: three for each matched category but the
      rate limit, which gives two, or three generic ones. So the list is
      never empty. */
  lemma SuggestionCount(message: string)
    ensures Unclassified(message) ==> |Suggestions(message)| == 3
    ensures !Unclassified(message) ==>
      |Suggestions(message)| == (if MentionsFetch(message) then 3 else 0) + (if MentionsMetadata(message) then 3 else 0)
        + (if MentionsAuth(message) then 3 else 0) + (if MentionsRateLimit(message) then 2 else 0)
        + (if MentionsNotFound(message) then 3 else 0)
    ensures 2 <= |Suggestions(message)| <= 14
  {
  }

  /** The generic advice is given exactly when no category matched: the
      first line of any category's advice is longer than the first generic
      line, so the two lists never coincide. */
  lemma GenericIffUnclassified(message: string)
    ensures Suggestions(message) == GenericSuggestions <==> Unclassified(message)
  {
    var matched := CategorySuggestions(message);
    if matched != [] {
      assert |matched[0]| > 30 == |GenericSuggestions[0]|;
    }
  }

  /** `isTemporaryError`: the message mentions a rate limit, the network or
      a timeout. */
  predicate IsTemporaryError(message: string) {
    Mentions(message, "rate limit") || Mentions(message, "network") || Mentions(message, "timeout")
  }

  /** A rate-limit error is both flagged as temporary and advised to wait;
      in particular any message holding `rate limit` as written, like the
      403 that GitHub's rate limiter sends. */
  lemma RateLimitAdvice(message: string, i: nat)
    requires OccursAt(message, "rate limit", i)
    ensures IsTemporaryError(message)
    ensures forall s :: s in RateLimitSuggestions ==> s in Suggestions(message)
  {
    LowerKeepsOccurrence(message, "rate limit", i);
    ContainsIff(ToLowerAscii(message), "rate limit");
    assert CategorySuggestions(message) != [];
  }

  /** A message that mentions the network or a timeout, in lower case as
      written or in any mix of cases, is flagged as temporary. */
  lemma TemporaryErrorWords(message: string, w: string, i: nat)
    requires w == "network" || w == "timeout"
    requires OccursAt(message, w, i)
    ensures IsTemporaryError(message)
  {
    LowerKeepsOccurrence(message, w, i);
    ContainsIff(ToLowerAscii(message), w);
  }

  /** A message whose lower-cased text holds none of the three words is not
      flagged as temporary. */
  lemma NotTemporaryError(message: string)
    requires forall i :: !OccursAt(ToLowerAscii(message), "rate limit", i)
    requires forall i :: !OccursAt(ToLowerAscii(message), "network", i)
    requires forall i :: !OccursAt(ToLowerAscii(message), "timeout", i)
    ensures !IsTemporaryError(message)
  {
    ContainsIff(ToLowerAscii(message), "rate limit");
    ContainsIff(ToLowerAscii(message), "network");
    ContainsIff(ToLowerAscii(message), "timeout");
  }

  /** A network failure that falls in no suggestion category shows the
      temporary notice together with the generic advice, which starts with
      checking the internet connection. */
  lemma NetworkErrorAdvice(message: string, i: nat)
    requires OccursAt(message, "network", i) && Unclassified(message)
    ensures IsTemporaryError(message)
    ensures Suggestions(message) == GenericSuggestions
    ensures Suggestions(message)[0] == "Check your internet connection"
  {
    TemporaryErrorWords(message, "network", i);
  }

  datatype Button = TryAgain | StartOver

  /** The footer: "Try Again" when `showRetry` is set and a retry callback
      is given, then "Start Over", always. */
  function Buttons(showRetry: bool, hasRetry: bool): (r: seq<Button>)
    ensures StartOver in r && r[|r| - 1] == StartOver
    ensures TryAgain in r <==> showRetry && hasRetry
  {
    (if showRetry && hasRetry then [TryAgain] else []) + [StartOver]
  }

  /** The message of a page refused with 404 Not Found, and its lower-cased
      text. The lemmas below take the texts, their pieces and the words
      looked for as parameters equal to them, and work on the two halves
      `failed to fetch ` and `html: 404 not found`: applied to literal
      arguments, Dafny evaluates `ToLowerAscii` and `Contains` character by
      character, at a cost well above these proofs. */
  const NotFoundExample := "Failed to fetch HTML: 404 Not Found"
  const NotFoundExampleLower := "failed to fetch html: 404 not found"

  lemma NotFoundExampleHalves(message: string, m1: string, m2: string, s: string, s1: string, s2: string)
    requires message == NotFoundExample && m1 == "Failed to fetch " && m2 == "HTML: 404 Not Found"
    requires s == NotFoundExampleLower && s1 == "failed to fetch " && s2 == "html: 404 not found"
    ensures message == m1 + m2 && s == s1 + s2
  {
  }

  lemma NotFoundExampleLowered(message: string)
    requires message == NotFoundExample
    ensures ToLowerAscii(message) == NotFoundExampleLower
  {
    var m1, m2 := "Failed to fetch ", "HTML: 404 Not Found";
    var s1, s2 := "failed to fetch ", "html: 404 not found";
    NotFoundExampleHalves(message, m1, m2, NotFoundExampleLower, s1, s2);
    LowerConcat(m1, m2);
    assert ToLowerAscii(m1) == s1;
    assert ToLowerAscii(m2) == s2;
  }

  /** The example mentions `fetch`. */
  lemma NotFoundExampleHasFetch(s: string, t: string)
    requires s == NotFoundExampleLower && t == "fetch"
    ensures Contains(s, t)
  {
    var s1, s2 := "failed to fetch ", "html: 404 not found";
    NotFoundExampleHalves(NotFoundExample, "Failed to fetch ", "HTML: 404 Not Found", s, s1, s2);
    assert s1 == "failed to " + t + " ";
    assert s == "failed to " + t + (" " + s2);
    ContainsJoin("failed to ", t, " " + s2);
  }

  /** The example mentions `404`. */
  lemma NotFoundExampleHas404(s: string, t: string)
    requires s == NotFoundExampleLower && t == "404"
    ensures Contains(s, t)
  {
    var s1, s2 := "failed to fetch ", "html: 404 not found";
    NotFoundExampleHalves(NotFoundExample, "Failed to fetch ", "HTML: 404 Not Found", s, s1, s2);
    assert s2 == "html: " + t + " not found";
    assert s == (s1 + "html: ") + t + " not found";
    ContainsJoin(s1 + "html: ", t, " not found");
  }

  /** `metadata` is ruled out by its `m`, found once in the example and
      followed by `l`. */
  lemma NotFoundExampleNoMetadata(s: string, t: string)
    requires s == NotFoundExampleLower && t == "metadata"
    ensures !Contains(s, t)
  {
    var s1, s2 := "failed to fetch ", "html: 404 not found";
    NotFoundExampleHalves(NotFoundExample, "Failed to fetch ", "HTML: 404 Not Found", s, s1, s2);
    assert s2 == "ht" + ['m'] + "l: 404 not found";
    assert s == (s1 + "ht") + ['m'] + "l: 404 not found";
    AbsentAround(s1 + "ht", 'm', "l: 404 not found", t, 0);
  }

  /** `authentication` is ruled out by its `u`, found once in the example
      and followed by `n`. */
  lemma NotFoundExampleNoAuthentication(s: string, t: string)
    requires s == NotFoundExampleLower && t == "authentication"
    ensures !Contains(s, t)
  {
    var s1, s2 := "failed to fetch ", "html: 404 not found";
    NotFoundExampleHalves(NotFoundExample, "Failed to fetch ", "HTML: 404 Not Found", s, s1, s2);
    assert s2 == "html: 404 not fo" + ['u'] + "nd";
    assert s == (s1 + "html: 404 not fo") + ['u'] + "nd";
    AbsentAround(s1 + "html: 404 not fo", 'u', "nd", t, 1);
  }

  /** `denied` is ruled out by its `i`, found once in the example and
      followed by `l`. */
  lemma NotFoundExampleNoDenied(s: string, t: string)
    requires s == NotFoundExampleLower && t == "denied"
    ensures !Contains(s, t)
  {
    var s1, s2 := "failed to fetch ", "html: 404 not found";
    NotFoundExampleHalves(NotFoundExample, "Failed to fetch ", "HTML: 404 Not Found", s, s1, s2);
    assert s1 == "fa" + ['i'] + "led to fetch ";
    assert s == "fa" + ['i'] + ("led to fetch " + s2);
    AbsentAround("fa", 'i', "led to fetch " + s2, t, 3);
  }

  /** `rate limit` is ruled out by its `r`, absent from the example. */
  lemma NotFoundExampleNoRateLimit(s: string, t: string)
    requires s == NotFoundExampleLower && t == "rate limit"
    ensures !Contains(s, t)
  {
    AbsentChar(s, t, 0);
  }

  /** The words of the lower-cased example: `fetch` and `404`, none of the
      other categories' words. */
  lemma NotFoundExampleWords(s: string)
    requires s == NotFoundExampleLower
    ensures Contains(s, "fetch") && Contains(s, "404")
    ensures !Contains(s, "metadata") && !Contains(s, "authentication")
    ensures !Contains(s, "denied") && !Contains(s, "rate limit")
  {
    NotFoundExampleHasFetch(s, "fetch");
    NotFoundExampleHas404(s, "404");
    NotFoundExampleNoMetadata(s, "metadata");
    NotFoundExampleNoAuthentication(s, "authentication");
    NotFoundExampleNoDenied(s, "denied");
    NotFoundExampleNoRateLimit(s, "rate limit");
  }

  /** The categories follow from the words of the lower-cased message. */
  lemma CategoriesOfWords(message: string, s: string)
    requires ToLowerAscii(message) == s
    ensures MentionsFetch(message) <==> Contains(s, "fetch")
    ensures MentionsMetadata(message) <==> Contains(s, "metadata")
    ensures MentionsAuth(message) <==> Contains(s, "authentication") || Contains(s, "denied")
    ensures MentionsRateLimit(message) <==> Contains(s, "rate limit")
    ensures MentionsNotFound(message) <==> Contains(s, "not found") || Contains(s, "404")
  {
  }

  /** The categories of the example: fetch and not found, nothing else. */
  lemma NotFoundExampleCategories(message: string)
    requires message == NotFoundExample
    ensures MentionsFetch(message) && MentionsNotFound(message)
    ensures !MentionsMetadata(message) && !MentionsAuth(message) && !MentionsRateLimit(message)
  {
    NotFoundExampleLowered(message);
    NotFoundExampleWords(ToLowerAscii(message));
    CategoriesOfWords(message, ToLowerAscii(message));
  }

  /** A message that mentions a fetch and a missing resource, and nothing
      else, gets the fetch advice followed by the not-found advice. */
  lemma FetchAndNotFoundSuggestions(message: string)
    requires MentionsFetch(message) && MentionsNotFound(message)
    requires !MentionsMetadata(message) && !MentionsAuth(message) && !MentionsRateLimit(message)
    ensures Suggestions(message) == FetchSuggestions + NotFoundSuggestions
  {
  }

  /** `Failed to fetch HTML: 404 Not Found` gets six suggestions: the fetch
      advice, then the not-found advice. */
  lemma NotFoundExampleSuggestions(message: string)
    requires message == NotFoundExample
    ensures Suggestions(message) == FetchSuggestions + NotFoundSuggestions
    ensures |Suggestions(message)| == 6
  {
    NotFoundExampleCategories(message);
    FetchAndNotFoundSuggestions(message);
  }
}
