/**
 * The metadata helpers of src/utils/metadata.ts: reading the four
 * `markpub:` meta tags, validating and splitting them, and stamping an
 * edited page with a timestamp comment.
 */
module Metadata {
  import opened Common
  import opened Text
  import opened Types
  import opened Validation

  /** The parsed document, seen through `querySelector('meta[name="…"]')`:
      a tag name absent from the map has no such element; a present one maps
      to its `content` attribute, `None` when the attribute is missing. */
  type MetaTags = map<string, Option<string>>

  const RepoTag := "markpub:repo"
  const FilepathTag := "markpub:filepath"
  const GeneratedTag := "markpub:generated"
  const GeneratorTag := "markpub:generator"

  predicate HasAllTags(doc: MetaTags) {
    RepoTag in doc && FilepathTag in doc && GeneratedTag in doc && GeneratorTag in doc
  }

  /** `getAttribute('content') || ''` of a tag that is present. */
  function Content(doc: MetaTags, tag: string): string
    requires tag in doc
  {
    doc[tag].GetOr("")
  }

  /** `extractMetadataFromHtml`: nothing unless all four tags exist; each
      field is then the tag's content, or empty when it has none. */
  function ExtractMetadataFromHtml(doc: MetaTags): (r: Option<BsCommentMetadata>)
    ensures r.None? <==> !HasAllTags(doc)
    ensures r.Some? ==>
      && (doc[RepoTag].Some? ==> r.value.repo == doc[RepoTag].value)
      && (doc[FilepathTag].Some? ==> r.value.filepath == doc[FilepathTag].value)
      && (doc[GeneratedTag].Some? ==> r.value.generated == doc[GeneratedTag].value)
      && (doc[GeneratorTag].Some? ==> r.value.generator == doc[GeneratorTag].value)
    ensures r.Some? ==>
      && (doc[RepoTag].None? ==> r.value.repo == "")
      && (doc[FilepathTag].None? ==> r.value.filepath == "")
      && (doc[GeneratedTag].None? ==> r.value.generated == "")
      && (doc[GeneratorTag].None? ==> r.value.generator == "")
  {
    if !HasAllTags(doc) then None
    else Some(BsCommentMetadata(
      Content(doc, RepoTag), Content(doc, FilepathTag),
      Content(doc, GeneratedTag), Content(doc, GeneratorTag)))
  }

  /** The literal `github.com/` the unanchored search looks for. */
  const HostSlash := "github.com/"

  /** The groups of `([^\/]+)\/([^\/]+)` matched from index `j` on. Each
      group is a greedy run of non-slash characters; giving back characters
      of the first group cannot help, since the next character must be a
      slash. */
  function GroupsFrom(s: string, j: nat): Option<(string, string)>
    requires j <= |s|
  {
    var n1 := SlashFreeRun(s, j);
    if n1 == 0 || j + n1 == |s| then None
    else
      var k := j + n1 + 1;
      var n2 := SlashFreeRun(s, k);
      if n2 == 0 then None else Some((s[j..j + n1], s[k..k + n2]))
  }

  /** The groups of `github\.com\/([^\/]+)\/([^\/]+)` when a match starts
      at `i`. */
  function MatchRepoGroupsAt(s: string, i: nat): Option<(string, string)>
    requires i <= |s|
  {
    if !StartsWith(s[i..], HostSlash) then None
    else GroupsFrom(s, i + |HostSlash|)
  }

  /** `s.match(...)` tries the start positions from `from` on, left to right. */
  function SearchRepoGroupsFrom(s: string, from: nat): Option<(string, string)>
    requires from <= |s|
    decreases |s| - from
  {
    if MatchRepoGroupsAt(s, from).Some? then MatchRepoGroupsAt(s, from)
    else if from == |s| then None
    else SearchRepoGroupsFrom(s, from + 1)
  }

  function SearchRepoGroups(s: string): Option<(string, string)> {
    SearchRepoGroupsFrom(s, 0)
  }

  /** `parseMetadata`: the repository is validated before the file path, and
      each failure throws with the validator's reason. */
  function ParseMetadata(m: BsCommentMetadata): (r: Outcome<ParsedMetadata>)
    ensures !ValidateGitHubRepo(m.repo).isValid
        ==> r == Fail("Invalid repository URL: " + ValidateGitHubRepo(m.repo).error.value)
    ensures ValidateGitHubRepo(m.repo).isValid && !ValidateFilePath(m.filepath).isValid
        ==> r == Fail("Invalid file path: " + ValidateFilePath(m.filepath).error.value)
    ensures r.Returned? ==>
      && r.value.repoUrl == StripTrailingSlash(m.repo)
      && r.value.filePath == m.filepath
      && r.value.generated == m.generated
      && r.value.generator == m.generator
  {
    var repoCheck := ValidateGitHubRepo(m.repo);
    if !repoCheck.isValid then
      Fail("Invalid repository URL: " + repoCheck.error.value)
    else
      var pathCheck := ValidateFilePath(m.filepath);
      if !pathCheck.isValid then
        Fail("Invalid file path: " + pathCheck.error.value)
      else
        match SearchRepoGroups(m.repo)
        case None => Fail("Could not parse repository owner and name")
        case Some((owner, repoName)) =>
          Returned(ParsedMetadata(StripTrailingSlash(m.repo), owner, repoName, m.filepath, m.generated, m.generator))
  }

  lemma NoMatchBeforeHost(s: string, scheme: string, from: nat)
    requires from <= |scheme| <= |s| && s[..|scheme|] == scheme && 'g' !in scheme
    ensures SearchRepoGroupsFrom(s, from) == SearchRepoGroupsFrom(s, |scheme|)
    decreases |scheme| - from
  {
    if from < |scheme| {
      assert s[from] == scheme[from];
      assert HostSlash[0] == 'g';
      if |HostSlash| <= |s[from..]| {
        assert s[from..][..|HostSlash|][0] == s[from];
      }
      NoMatchBeforeHost(s, scheme, from + 1);
    }
  }

  lemma GroupsFromOf(a: string, owner: string, repo: string, tail: string)
    requires IsSegment(owner) && IsSegment(repo)
    requires tail == [] || tail[0] == '/'
    ensures GroupsFrom(a + owner + "/" + repo + tail, |a|) == Some((owner, repo))
  {
    var s := a + owner + "/" + repo + tail;
    var j := |a|;
    assert s[j..j + |owner|] == owner;
    assert s[j + |owner|] == '/';
    SlashFreeRunOf(s, j, owner);
    var k := j + |owner| + 1;
    assert s[k..k + |repo|] == repo;
    if k + |repo| < |s| {
      assert s[k + |repo|] == tail[0];
    }
    SlashFreeRunOf(s, k, repo);
  }

  lemma MatchAfterScheme(scheme: string, owner: string, repo: string, tail: string)
    requires IsSegment(owner) && IsSegment(repo)
    requires tail == [] || tail[0] == '/'
    ensures MatchRepoGroupsAt(scheme + HostSlash + RepoPath(owner, repo) + tail, |scheme|) == Some((owner, repo))
  {
    var a := scheme + HostSlash;
    var s := a + RepoPath(owner, repo) + tail;
    assert s == a + owner + "/" + repo + tail;
    assert s[|scheme|..] == HostSlash + (RepoPath(owner, repo) + tail);
    AfterPrefix(HostSlash, RepoPath(owner, repo) + tail);
    GroupsFromOf(a, owner, repo, tail);
  }

  lemma SearchAfterScheme(scheme: string, owner: string, repo: string, tail: string)
    requires 'g' !in scheme
    requires IsSegment(owner) && IsSegment(repo)
    requires tail == [] || tail[0] == '/'
    ensures SearchRepoGroups(scheme + HostSlash + RepoPath(owner, repo) + tail) == Some((owner, repo))
  {
    var s := scheme + HostSlash + RepoPath(owner, repo) + tail;
    assert s[..|scheme|] == scheme;
    NoMatchBeforeHost(s, scheme, 0);
    MatchAfterScheme(scheme, owner, repo, tail);
  }

  lemma PrefixScheme(prefix: string) returns (scheme: string)
    requires prefix == HttpsPrefix || prefix == HttpPrefix
    ensures prefix == scheme + HostSlash && 'g' !in scheme
  {
    scheme := if prefix == HttpsPrefix then "https://" else "http://";
  }

  /** The unanchored search finds the owner and name right after the host of
      an `http(s)://github.com/` URL, whatever slashes follow the name. */
  lemma SearchRepoGroupsOf(prefix: string, owner: string, repo: string, tail: string)
    requires prefix == HttpsPrefix || prefix == HttpPrefix
    requires IsSegment(owner) && IsSegment(repo)
    requires tail == [] || tail[0] == '/'
    ensures SearchRepoGroups(prefix + (RepoPath(owner, repo) + tail)) == Some((owner, repo))
  {
    var scheme := PrefixScheme(prefix);
    SearchAfterScheme(scheme, owner, repo, tail);
    Reassociate(scheme, HostSlash, RepoPath(owner, repo), tail);
  }

  lemma Reassociate(a: string, b: string, c: string, d: string)
    ensures (a + b) + (c + d) == a + b + c + d
  {
  }

  /** Removing one trailing slash and putting it back. */
  lemma UnstripTrailingSlash(u: string, x: string)
    requires StripTrailingSlash(u) == x
    ensures u == x || u == x + "/"
  {
  }

  lemma FormShape(s: string, owner: string, repo: string) returns (prefix: string, inner: string)
    requires s in RepoUrlForms(owner, repo)
    ensures prefix == HttpsPrefix || prefix == HttpPrefix
    ensures inner == "" || inner == "/"
    ensures s == prefix + (RepoPath(owner, repo) + inner)
  {
    var path := RepoPath(owner, repo);
    prefix := if s == HttpsPrefix + path || s == HttpsPrefix + (path + "/") then HttpsPrefix else HttpPrefix;
    inner := if s == prefix + path then "" else "/";
    if inner == "" {
      assert path + inner == path;
    }
  }

  lemma AppendTail(u: string, prefix: string, path: string, inner: string) returns (tail: string)
    requires StripTrailingSlash(u) == prefix + (path + inner)
    ensures tail == inner || tail == inner + "/"
    ensures u == prefix + (path + tail)
  {
    UnstripTrailingSlash(u, prefix + (path + inner));
    if u == prefix + (path + inner) {
      tail := inner;
    } else {
      tail := inner + "/";
      assert (path + inner) + "/" == path + tail;
    }
  }

  /** A repository URL that passes validation is one of the accepted spellings
      followed by at most one extra slash. */
  lemma ValidRepoShape(repoUrl: string) returns (prefix: string, owner: string, repo: string, inner: string, tail: string)
    requires ValidateGitHubRepo(repoUrl).isValid
    ensures prefix == HttpsPrefix || prefix == HttpPrefix
    ensures IsSegment(owner) && IsSegment(repo)
    ensures inner == "" || inner == "/"
    ensures tail == inner || tail == inner + "/"
    ensures StripTrailingSlash(repoUrl) == prefix + (RepoPath(owner, repo) + inner)
    ensures repoUrl == prefix + (RepoPath(owner, repo) + tail)
  {
    ValidateGitHubRepoIff(repoUrl);
    var stripped := StripTrailingSlash(repoUrl);
    var groups := MatchRepoPattern(stripped).value;
    owner, repo := groups.0, groups.1;
    MatchRepoPatternSound(stripped, owner, repo);
    prefix, inner := FormShape(stripped, owner, repo);
    tail := AppendTail(repoUrl, prefix, RepoPath(owner, repo), inner);
  }

  /** Once both validations pass, the owner-and-name search cannot fail:
      the 'Could not parse repository owner and name' error is unreachable,
      and the groups are exactly those of the anchored validation pattern. */
  lemma ParseMetadataValid(m: BsCommentMetadata)
    requires ValidateGitHubRepo(m.repo).isValid && ValidateFilePath(m.filepath).isValid
    ensures ParseMetadata(m).Returned?
    ensures MatchRepoPattern(StripTrailingSlash(m.repo)) == Some((ParseMetadata(m).value.owner, ParseMetadata(m).value.repoName))
  {
    var prefix, owner, repo, inner, tail := ValidRepoShape(m.repo);
    SearchRepoGroupsOf(prefix, owner, repo, tail);
    MatchRepoPatternAt(prefix, RepoPath(owner, repo) + inner);
    MatchAfterHostOf(owner, repo, inner);
  }

  /** `parseMetadata` never yields null and never reports the unparseable
      owner: it returns exactly when both validations pass. */
  lemma ParseMetadataReturnsIff(m: BsCommentMetadata)
    ensures ParseMetadata(m).Returned? <==> ValidateGitHubRepo(m.repo).isValid && ValidateFilePath(m.filepath).isValid
    ensures ParseMetadata(m) != Fail("Could not parse repository owner and name")
  {
    if ValidateGitHubRepo(m.repo).isValid && ValidateFilePath(m.filepath).isValid {
      ParseMetadataValid(m);
    }
  }

  /** Whatever `parseMetadata` throws is a plain `Error`. */
  lemma ParseMetadataThrowsError(m: BsCommentMetadata)
    requires ParseMetadata(m).Threw?
    ensures ParseMetadata(m).exception.JsError? && ParseMetadata(m).exception.name == "Error"
  {
    ParseMetadataReturnsIff(m);
  }

  lemma StripTail(x: string, tail: string)
    requires x != [] && x[|x| - 1] != '/'
    requires tail == "" || tail == "/"
    ensures StripTrailingSlash(x + tail) == x
  {
    if tail == "" {
      assert x + tail == x;
    } else {
      StripSlash(x);
    }
  }

  /** A repository URL in an accepted spelling, with or without one
      trailing slash, strips to its bare form. */
  lemma StripRepoTail(prefix: string, owner: string, repo: string, tail: string)
    requires IsSegment(repo)
    requires tail == "" || tail == "/"
    ensures StripTrailingSlash(prefix + (RepoPath(owner, repo) + tail)) == prefix + (RepoPath(owner, repo) + "")
  {
    var path := RepoPath(owner, repo);
    assert (prefix + path)[|prefix + path| - 1] == repo[|repo| - 1];
    StripTail(prefix + path, tail);
    assert prefix + (path + tail) == (prefix + path) + tail;
    assert path + "" == path;
  }

  /** Such a URL validates, and the owner-and-name search finds its two
      segments. */
  lemma RepoUrlWithTail(prefix: string, owner: string, repo: string, tail: string)
    requires prefix == HttpsPrefix || prefix == HttpPrefix
    requires IsSegment(owner) && IsSegment(repo)
    requires tail == "" || tail == "/"
    ensures StripTrailingSlash(prefix + (RepoPath(owner, repo) + tail)) == prefix + RepoPath(owner, repo)
    ensures ValidateGitHubRepo(prefix + (RepoPath(owner, repo) + tail)).isValid
    ensures SearchRepoGroups(prefix + (RepoPath(owner, repo) + tail)) == Some((owner, repo))
  {
    StripRepoTail(prefix, owner, repo, tail);
    assert RepoPath(owner, repo) + "" == RepoPath(owner, repo);
    ValidWhenStripsTo(prefix + (RepoPath(owner, repo) + tail), prefix, owner, repo, "");
    SearchRepoGroupsOf(prefix, owner, repo, tail);
  }

  /** With or without a trailing slash, a repository URL parses to the same
      record: `https://github.com/foo/bar/` and `https://github.com/foo/bar`
      both give owner `foo` and name `bar`. */
  lemma ParseMetadataTrailingSlash(prefix: string, owner: string, repo: string, tail: string, m: BsCommentMetadata)
    requires prefix == HttpsPrefix || prefix == HttpPrefix
    requires IsSegment(owner) && IsSegment(repo)
    requires tail == "" || tail == "/"
    requires m.repo == prefix + (RepoPath(owner, repo) + tail)
    requires ValidateFilePath(m.filepath).isValid
    ensures ParseMetadata(m) == Returned(ParsedMetadata(
      prefix + RepoPath(owner, repo), owner, repo, m.filepath, m.generated, m.generator))
  {
    RepoUrlWithTail(prefix, owner, repo, tail);
  }

  const BodyCloseTag := "</body>"

  /** The marker written into an edited page. */
  function TimestampComment(timestamp: string): string {
    "<!-- bsComment Editor: Updated " + timestamp + " -->"
  }

  /** `k` is the index of the last `</body>` of `html`. */
  ghost predicate IsLastBodyClose(html: string, k: int) {
    OccursAt(html, BodyCloseTag, k) && forall j :: k < j ==> !OccursAt(html, BodyCloseTag, j)
  }

  /** `html` with `text` inserted at index `k`. */
  function InsertAt(html: string, k: nat, text: string): (r: string)
    requires k <= |html|
    ensures |r| == |html| + |text|
    ensures r[..k] == html[..k] && r[k..k + |text|] == text && r[k + |text|..] == html[k..]
  {
    html[..k] + text + html[k..]
  }

  /** `addTimestampComment`, with the ISO timestamp passed in: the comment and
      a newline go just before the last `</body>`, or after a newline at the
      end when there is none. */
  function AddTimestampComment(html: string, timestamp: string): (r: string)
    ensures (forall j :: !OccursAt(html, BodyCloseTag, j)) ==> r == html + "\n" + TimestampComment(timestamp)
    ensures forall k :: IsLastBodyClose(html, k) ==> r == InsertAt(html, k, TimestampComment(timestamp) + "\n")
    ensures |r| == |html| + |TimestampComment(timestamp)| + 1
  {
    var comment := TimestampComment(timestamp);
    match LastIndexOf(html, BodyCloseTag)
    case None => html + "\n" + comment
    case Some(k) =>
      LastOccurrenceUnique(html, BodyCloseTag, k);
      InsertAt(html, k, comment + "\n")
  }

  lemma LastOccurrenceUnique(s: string, t: string, k: nat)
    requires OccursAt(s, t, k) && forall j :: k < j ==> !OccursAt(s, t, j)
    ensures forall k' :: OccursAt(s, t, k') && (forall j :: k' < j ==> !OccursAt(s, t, j)) ==> k' == k
  {
  }

  /** After an insertion, the page's `</body>` is still the last one, moved
      right by the inserted text. */
  lemma InsertKeepsLastBodyClose(html: string, k: nat, ins: string)
    requires IsLastBodyClose(html, k)
    ensures IsLastBodyClose(InsertAt(html, k, ins), k + |ins|)
  {
    var h := InsertAt(html, k, ins);
    var d := |ins|;
    assert h[k + d..k + d + |BodyCloseTag|] == html[k..k + |BodyCloseTag|];
    forall j | k + d < j
      ensures !OccursAt(h, BodyCloseTag, j)
    {
      if OccursAt(h, BodyCloseTag, j) {
        assert h[j..j + |BodyCloseTag|] == html[j - d..j - d + |BodyCloseTag|];
        assert OccursAt(html, BodyCloseTag, j - d);
      }
    }
  }

  lemma InsertTwice(html: string, k: nat, a: string, b: string)
    requires k <= |html|
    ensures InsertAt(InsertAt(html, k, a), k + |a|, b) == InsertAt(html, k, a + b)
  {
    var once := InsertAt(html, k, a);
    assert once[..k + |a|] == html[..k] + a;
  }

  /** Two stamps on a page with a `</body>` both land before it, in the order
      they were made, and the rest of the page is untouched. */
  lemma AddTimestampCommentTwice(html: string, k: nat, t1: string, t2: string)
    requires IsLastBodyClose(html, k)
    ensures AddTimestampComment(AddTimestampComment(html, t1), t2)
      == InsertAt(html, k, (TimestampComment(t1) + "\n") + (TimestampComment(t2) + "\n"))
  {
    var c1 := TimestampComment(t1) + "\n";
    var c2 := TimestampComment(t2) + "\n";
    var once := AddTimestampComment(html, t1);
    assert once == InsertAt(html, k, c1);
    InsertKeepsLastBodyClose(html, k, c1);
    assert AddTimestampComment(once, t2) == InsertAt(once, k + |c1|, c2);
    InsertTwice(html, k, c1, c2);
  }
}
