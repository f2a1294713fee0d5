/**
 * The form of src/components/screens/UrlInputScreen.tsx: the typed `url`
 * and an `inputError`, checked on submit before the URL is handed to the
 * metadata loader.
 */
module UrlInput {
  import opened Common
  import opened Text
  import opened Types
  import opened Validation

  const EnterUrlMessage := "Please enter a URL"
  const ValidUrlMessage := "Please enter a valid URL"

  /** What a submit does with the typed text: hand over its trimmed form,
      or refuse it with a message. */
  datatype SubmitCheck = Accepted(value: string) | Refused(message: string)

  /** `handleSubmit`'s decision: blank input is refused first; then the
      untrimmed text must parse as a URL; the submitted value is the
      trimmed text. */
  function CheckSubmission(url: string, parseUrl: UrlParser): (r: SubmitCheck)
    ensures r.Accepted? <==> !IsBlank(url) && parseUrl(url).Some?
    ensures r.Accepted? ==> r.value == Trim(url) && !IsBlank(r.value)
    ensures IsBlank(url) ==> r == Refused(EnterUrlMessage)
    ensures !IsBlank(url) && parseUrl(url).None? ==> r == Refused(ValidUrlMessage)
  {
    if Trim(url) == [] then Refused(EnterUrlMessage)
    else if parseUrl(url).None? then Refused(ValidUrlMessage)
    else
      var t := Trim(url);
      assert !IsJsWhitespace(t[0]);
      Accepted(t)
  }

  /** `disabled={!url.trim()}` on the submit button. */
  predicate SubmitDisabled(url: string) {
    Trim(url) == []
  }

  /** The button is disabled exactly when a submit would be refused as
      empty. */
  lemma DisabledIffEmptyRefusal(url: string, parseUrl: UrlParser)
    ensures SubmitDisabled(url) <==> CheckSubmission(url, parseUrl) == Refused(EnterUrlMessage)
  {
  }

  /** Whatever the validator accepts the form accepts too, and hands over
      its trimmed text; a submitted value is never blank, so the loader
      never answers it with `URL is required`. */
  lemma FormAcceptsValidatedUrl(url: string, parseUrl: UrlParser)
    ensures ValidateUrl(url, parseUrl).isValid ==> CheckSubmission(url, parseUrl) == Accepted(Trim(url))
    ensures CheckSubmission(url, parseUrl).Accepted? ==>
      ValidateUrl(CheckSubmission(url, parseUrl).value, parseUrl) != Invalid("URL is required")
  {
  }

  /** The form is weaker than the validator: it does not look at the
      protocol, so a parseable `ftp:` URL is submitted and then refused by
      the loader. */
  lemma FormIgnoresProtocol(url: string, parseUrl: UrlParser)
    requires !IsBlank(url) && parseUrl(url) == Some("ftp:")
    ensures CheckSubmission(url, parseUrl) == Accepted(Trim(url))
    ensures ValidateUrl(url, parseUrl) == Invalid("URL must use HTTP or HTTPS protocol")
  {
  }

  /** The form's state. */
  class UrlInputScreen {
    var url: string
    var inputError: Option<string>

    constructor()
      ensures url == "" && inputError == None
    {
      url := "";
      inputError := None;
    }

    /** `handleSubmit`, where `submitted` is what `onUrlSubmit` receives, if
        it is called. The typed text is kept either way. */
    method HandleSubmit(parseUrl: UrlParser) returns (submitted: Option<string>)
      modifies this
      ensures url == old(url)
      ensures CheckSubmission(url, parseUrl).Accepted? ==>
        submitted == Some(CheckSubmission(url, parseUrl).value) && inputError == None
      ensures CheckSubmission(url, parseUrl).Refused? ==>
        submitted == None && inputError == Some(CheckSubmission(url, parseUrl).message)
    {
      if Trim(url) == [] {
        inputError := Some(EnterUrlMessage);
        return None;
      }
      var parsed := parseUrl(url);
      if parsed.None? {
        inputError := Some(ValidUrlMessage);
        return None;
      }
      inputError := None;
      submitted := Some(Trim(url));
    }

    /** `handleUrlChange`: the text is replaced, and a present message is
        cleared. */
    method HandleUrlChange(value: string)
      modifies this
      ensures url == value
      ensures !Truthy(inputError)
      ensures Truthy(old(inputError)) ==> inputError == None
      ensures !Truthy(old(inputError)) ==> inputError == old(inputError)
    {
      url := value;
      if Truthy(inputError) {
        inputError := None;
      }
    }
  }
}
