/**
 * The input checks of src/utils/validation.ts: each returns a
 * `ValidationResult` whose reason is the first check that failed.
 */
module Validation {
  import opened Common
  import opened Text
  import opened Types

  /** `new URL(s)`, which is not modelled: the parsed URL's `protocol`, or
      `None` when the constructor throws. */
  type UrlParser = string -> Option<string>

  function Valid(): ValidationResult {
    ValidationResult(true, None)
  }

  function Invalid(reason: string): ValidationResult {
    ValidationResult(false, Some(reason))
  }

  /** `validateUrl`: blank input is refused before any parse, an unparseable
      URL is refused, and a parseable one is accepted exactly for the
      `http:` and `https:` protocols. */
  function ValidateUrl(url: string, parseUrl: UrlParser): (r: ValidationResult)
    ensures r.WellFormed()
    ensures IsBlank(url) ==> r == Invalid("URL is required")
    ensures !IsBlank(url) ==> (r.isValid <==> parseUrl(url) == Some("http:") || parseUrl(url) == Some("https:"))
    ensures !IsBlank(url) && parseUrl(url).None? ==> r == Invalid("Please enter a valid URL")
    ensures !IsBlank(url) && parseUrl(url).Some? && !r.isValid ==> r == Invalid("URL must use HTTP or HTTPS protocol")
  {
    if Trim(url) == [] then
      Invalid("URL is required")
    else
      match parseUrl(url)
      case None => Invalid("Please enter a valid URL")
      case Some(protocol) =>
        if protocol !in ["http:", "https:"] then Invalid("URL must use HTTP or HTTPS protocol") else Valid()
  }

  const GitHubHost := "github.com"
  const HttpsPrefix := "https://github.com/"
  const HttpPrefix := "http://github.com/"

  /** `s.replace(/\/$/, '')`: at most one trailing slash removed. */
  function StripTrailingSlash(s: string): (r: string)
    ensures EndsWith(s, "/") ==> s == r + "/"
    ensures !EndsWith(s, "/") ==> r == s
  {
    if s != [] && s[|s| - 1] == '/' then s[..|s| - 1] else s
  }

  /** What `[^\/]+` matches: a non-empty string without a slash. */
  predicate IsSegment(s: string) {
    s != [] && '/' !in s
  }

  /** Length of the longest run of non-slash characters of `s` from `from` on:
      what a greedy `[^\/]*` consumes there. */
  function SlashFreeRun(s: string, from: nat): (n: nat)
    requires from <= |s|
    ensures from + n <= |s|
    ensures '/' !in s[from..from + n]
    ensures from + n < |s| ==> s[from + n] == '/'
    decreases |s| - from
  {
    if from == |s| || s[from] == '/' then 0 else 1 + SlashFreeRun(s, from + 1)
  }

  lemma {:induction false} SlashFreeRunOf(s: string, from: nat, seg: string)
    requires from + |seg| <= |s| && s[from..from + |seg|] == seg && '/' !in seg
    requires from + |seg| == |s| || s[from + |seg|] == '/'
    ensures SlashFreeRun(s, from) == |seg|
    decreases |seg|
  {
    if seg != [] {
      assert s[from] == seg[0];
      assert s[from + 1..from + |seg|] == seg[1..];
      SlashFreeRunOf(s, from + 1, seg[1..]);
    }
  }

  /** `owner/repo` split at its only slash, both parts non-empty. */
  function SplitOwnerRepo(p: string): Option<(string, string)> {
    var n := SlashFreeRun(p, 0);
    if n == 0 || n == |p| then None
    else
      var repo := p[n + 1..];
      if repo == [] || '/' in repo then None else Some((p[..n], repo))
  }

  function RepoPath(owner: string, repo: string): string {
    owner + "/" + repo
  }

  /** `([^\/]+)\/([^\/]+)\/?$` matched against what follows the host. */
  function MatchAfterHost(rest: string): Option<(string, string)> {
    SplitOwnerRepo(StripTrailingSlash(rest))
  }

  /** The two groups of `/^https?:\/\/github\.com\/([^\/]+)\/([^\/]+)\/?$/`
      matched against `s`, or `None` when the pattern does not match. */
  function MatchRepoPattern(s: string): Option<(string, string)> {
    if StartsWith(s, HttpsPrefix) then MatchAfterHost(s[|HttpsPrefix|..])
    else if StartsWith(s, HttpPrefix) then MatchAfterHost(s[|HttpPrefix|..])
    else None
  }

  /** The strings the anchored pattern accepts with groups `owner` and `repo`:
      either scheme, with or without one trailing slash. */
  function RepoUrlForms(owner: string, repo: string): set<string> {
    var path := RepoPath(owner, repo);
    {HttpsPrefix + path, HttpsPrefix + (path + "/"), HttpPrefix + path, HttpPrefix + (path + "/")}
  }

  lemma HttpIsNotHttps(rest: string)
    ensures !StartsWith(HttpPrefix + rest, HttpsPrefix)
  {
    var s := HttpPrefix + rest;
    assert s[4] == ':';
    if |HttpsPrefix| <= |s| {
      assert s[..|HttpsPrefix|][4] == ':';
      assert HttpsPrefix[4] == 's';
    }
  }

  lemma MatchRepoPatternAt(prefix: string, rest: string)
    requires prefix == HttpsPrefix || prefix == HttpPrefix
    ensures MatchRepoPattern(prefix + rest) == MatchAfterHost(rest)
  {
    AfterPrefix(prefix, rest);
    if prefix == HttpPrefix {
      HttpIsNotHttps(rest);
    }
  }

  lemma SplitOwnerRepoOf(owner: string, repo: string, extra: string)
    requires IsSegment(owner) && IsSegment(repo)
    requires extra == "" || extra == "/"
    ensures SplitOwnerRepo(RepoPath(owner, repo) + extra) == if extra == "" then Some((owner, repo)) else None
  {
    var p := RepoPath(owner, repo) + extra;
    assert p == owner + ("/" + repo + extra);
    assert p[0..|owner|] == owner;
    assert p[|owner|] == '/';
    SlashFreeRunOf(p, 0, owner);
    assert p[|owner| + 1..] == repo + extra;
    if extra == "/" {
      assert (repo + extra)[|repo|] == '/';
    } else {
      assert repo + extra == repo;
    }
  }

  lemma MatchAfterHostOf(owner: string, repo: string, trail: string)
    requires IsSegment(owner) && IsSegment(repo)
    requires trail == "" || trail == "/"
    ensures MatchAfterHost(RepoPath(owner, repo) + trail) == Some((owner, repo))
  {
    var path := RepoPath(owner, repo);
    if trail == "" {
      assert path + trail == path;
      assert path[|path| - 1] == repo[|repo| - 1];
    }
    assert StripTrailingSlash(path + trail) == path + "";
    SplitOwnerRepoOf(owner, repo, "");
  }

  lemma MatchAfterHostSound(rest: string, owner: string, repo: string)
    requires MatchAfterHost(rest) == Some((owner, repo))
    ensures IsSegment(owner) && IsSegment(repo)
    ensures rest == RepoPath(owner, repo) || rest == RepoPath(owner, repo) + "/"
  {
    var p := StripTrailingSlash(rest);
    var n := SlashFreeRun(p, 0);
    assert owner == p[..n] && repo == p[n + 1..];
    assert p == RepoPath(owner, repo);
  }

  lemma {:induction false} MatchRepoPatternSound(s: string, owner: string, repo: string)
    requires MatchRepoPattern(s) == Some((owner, repo))
    ensures IsSegment(owner) && IsSegment(repo) && s in RepoUrlForms(owner, repo)
  {
    var prefix := if StartsWith(s, HttpsPrefix) then HttpsPrefix else HttpPrefix;
    var rest := s[|prefix|..];
    assert s == prefix + rest;
    MatchRepoPatternAt(prefix, rest);
    MatchAfterHostSound(rest, owner, repo);
  }

  /** The pattern matcher is exact: it yields `(owner, repo)` precisely for
      the four accepted spellings of that repository. */
  lemma MatchRepoPatternIff(s: string, owner: string, repo: string)
    ensures MatchRepoPattern(s) == Some((owner, repo))
        <==> IsSegment(owner) && IsSegment(repo) && s in RepoUrlForms(owner, repo)
  {
    if MatchRepoPattern(s) == Some((owner, repo)) {
      MatchRepoPatternSound(s, owner, repo);
    }
    if IsSegment(owner) && IsSegment(repo) && s in RepoUrlForms(owner, repo) {
      var path := RepoPath(owner, repo);
      var prefix := if s == HttpsPrefix + path || s == HttpsPrefix + (path + "/") then HttpsPrefix else HttpPrefix;
      var trail := if s == prefix + path then "" else "/";
      assert s == prefix + (path + trail);
      MatchRepoPatternAt(prefix, path + trail);
      MatchAfterHostOf(owner, repo, trail);
    }
  }

  /** `validateGitHubRepo`: the host test comes first, then the anchored
      pattern on the URL with one trailing slash removed. */
  function ValidateGitHubRepo(repoUrl: string): (r: ValidationResult)
    ensures r.WellFormed()
    ensures !Contains(repoUrl, GitHubHost) ==> r == Invalid("Repository must be hosted on GitHub")
    ensures Contains(repoUrl, GitHubHost) && !r.isValid ==> r == Invalid("Invalid GitHub repository URL format")
  {
    if !Contains(repoUrl, GitHubHost) then
      Invalid("Repository must be hosted on GitHub")
    else if MatchRepoPattern(StripTrailingSlash(repoUrl)).None? then
      Invalid("Invalid GitHub repository URL format")
    else
      Valid()
  }

  lemma PrefixHasHost(prefix: string, rest: string)
    requires prefix == HttpsPrefix || prefix == HttpPrefix
    ensures Contains(prefix + rest, GitHubHost)
  {
    var k := |prefix| - 11;
    assert (prefix + rest)[k..k + 10] == prefix[k..k + 10] == GitHubHost;
    assert OccursAt(prefix + rest, GitHubHost, k);
    ContainsIff(prefix + rest, GitHubHost);
  }

  lemma ContainsAfterStrip(s: string, t: string)
    requires Contains(StripTrailingSlash(s), t)
    ensures Contains(s, t)
  {
    var p := StripTrailingSlash(s);
    ContainsIff(p, t);
    var i :| OccursAt(p, t, i);
    assert s[i..i + |t|] == p[i..i + |t|];
    assert OccursAt(s, t, i);
    ContainsIff(s, t);
  }

  /** A repository URL is valid exactly when, after one trailing slash is
      removed, the anchored pattern matches it: the host check only chooses
      the message. */
  lemma ValidateGitHubRepoIff(repoUrl: string)
    ensures ValidateGitHubRepo(repoUrl).isValid <==> MatchRepoPattern(StripTrailingSlash(repoUrl)).Some?
  {
    var s := StripTrailingSlash(repoUrl);
    if MatchRepoPattern(s).Some? {
      var prefix := if StartsWith(s, HttpsPrefix) then HttpsPrefix else HttpPrefix;
      assert StartsWith(s, prefix);
      assert s == s[..|prefix|] + s[|prefix|..];
      PrefixHasHost(prefix, s[|prefix|..]);
      ContainsAfterStrip(repoUrl, GitHubHost);
    }
  }

  lemma StripSlash(x: string)
    ensures StripTrailingSlash(x + "/") == x
  {
    assert (x + "/")[..|x|] == x;
  }

  /** `https?://github.com/O/R` is valid with zero, one or two trailing
      slashes (one is stripped, the pattern allows one more) and invalid
      with three. */
  lemma ValidateGitHubRepoTrailingSlashes(prefix: string, owner: string, repo: string)
    requires prefix == HttpsPrefix || prefix == HttpPrefix
    requires IsSegment(owner) && IsSegment(repo)
    ensures ValidateGitHubRepo(prefix + RepoPath(owner, repo)).isValid
    ensures ValidateGitHubRepo(prefix + RepoPath(owner, repo) + "/").isValid
    ensures ValidateGitHubRepo(prefix + RepoPath(owner, repo) + "/" + "/").isValid
    ensures !ValidateGitHubRepo(prefix + RepoPath(owner, repo) + "/" + "/" + "/").isValid
  {
    var path := RepoPath(owner, repo);
    var s0 := prefix + path;
    var s1 := s0 + "/";
    var s2 := s1 + "/";
    var s3 := s2 + "/";
    assert s0[|s0| - 1] == repo[|repo| - 1];
    assert StripTrailingSlash(s0) == prefix + (path + "");
    StripSlash(s0);
    assert StripTrailingSlash(s1) == prefix + (path + "");
    StripSlash(s1);
    assert StripTrailingSlash(s2) == prefix + (path + "/");
    ValidWhenStripsTo(s0, prefix, owner, repo, "");
    ValidWhenStripsTo(s1, prefix, owner, repo, "");
    ValidWhenStripsTo(s2, prefix, owner, repo, "/");
    StripSlash(s2);
    assert StripTrailingSlash(s3) == prefix + ((path + "/") + "/");
    MatchRepoPatternAt(prefix, (path + "/") + "/");
    StripSlash(path + "/");
    SplitOwnerRepoOf(owner, repo, "/");
    ValidateGitHubRepoIff(s3);
  }

  lemma ValidWhenStripsTo(s: string, prefix: string, owner: string, repo: string, trail: string)
    requires prefix == HttpsPrefix || prefix == HttpPrefix
    requires IsSegment(owner) && IsSegment(repo)
    requires trail == "" || trail == "/"
    requires StripTrailingSlash(s) == prefix + (RepoPath(owner, repo) + trail)
    ensures ValidateGitHubRepo(s).isValid
  {
    MatchRepoPatternAt(prefix, RepoPath(owner, repo) + trail);
    MatchAfterHostOf(owner, repo, trail);
    ValidateGitHubRepoIff(s);
  }

  lemma NoSchemeMatch(s: string, k: nat)
    requires k < |s| && k < |HttpPrefix| && s[k] != HttpsPrefix[k] && s[k] != HttpPrefix[k]
    ensures MatchRepoPattern(s) == None
  {
    if |HttpsPrefix| <= |s| {
      assert s[..|HttpsPrefix|][k] == s[k];
    }
    if |HttpPrefix| <= |s| {
      assert s[..|HttpPrefix|][k] == s[k];
    }
  }

  /** The pattern is case-sensitive: an upper-case scheme or host is refused. */
  lemma ValidateGitHubRepoCaseSensitive(owner: string, repo: string)
    requires IsSegment(owner) && IsSegment(repo)
    ensures !ValidateGitHubRepo("HTTPS://github.com/" + RepoPath(owner, repo)).isValid
    ensures !ValidateGitHubRepo("https://GitHub.com/" + RepoPath(owner, repo)).isValid
  {
    var a := "HTTPS://github.com/" + RepoPath(owner, repo);
    var b := "https://GitHub.com/" + RepoPath(owner, repo);
    assert a[|a| - 1] == repo[|repo| - 1];
    assert b[|b| - 1] == repo[|repo| - 1];
    assert a[0] == 'H';
    NoSchemeMatch(a, 0);
    assert b[8] == 'G';
    NoSchemeMatch(b, 8);
    ValidateGitHubRepoIff(a);
    ValidateGitHubRepoIff(b);
  }

  lemma ContainsWithSlash(s: string, t: string)
    requires t != [] && t[|t| - 1] != '/'
    ensures Contains(s + "/", t) <==> Contains(s, t)
  {
    ContainsIff(s + "/", t);
    ContainsIff(s, t);
    forall i | OccursAt(s + "/", t, i) ensures OccursAt(s, t, i) {
      assert (s + "/")[i..i + |t|][|t| - 1] == (s + "/")[i + |t| - 1] == t[|t| - 1];
      assert (s + "/")[|s|] == '/';
      assert i + |t| - 1 != |s|;
      assert (s + "/")[i..i + |t|] == s[i..i + |t|];
    }
    forall i | OccursAt(s, t, i) ensures OccursAt(s + "/", t, i) {
      assert (s + "/")[i..i + |t|] == s[i..i + |t|];
    }
  }

  /** One added trailing slash never changes the verdict on a URL that does
      not already end with a slash. */
  lemma ValidateGitHubRepoSlashInvariant(s: string)
    requires !EndsWith(s, "/")
    ensures ValidateGitHubRepo(s + "/") == ValidateGitHubRepo(s)
  {
    ContainsWithSlash(s, GitHubHost);
    assert StripTrailingSlash(s + "/") == s;
  }

  /** `validateFilePath`: blank, then the leading slash, then the `.html`
      extension compared case-insensitively. */
  function ValidateFilePath(filePath: string): (r: ValidationResult)
    ensures r.WellFormed()
    ensures r.isValid <==> StartsWith(filePath, "/") && EndsWith(ToLowerAscii(filePath), ".html")
    ensures IsBlank(filePath) ==> r == Invalid("File path is required")
    ensures !IsBlank(filePath) && !StartsWith(filePath, "/") ==> r == Invalid("File path must start with /")
    ensures StartsWith(filePath, "/") && !EndsWith(ToLowerAscii(filePath), ".html")
        ==> r == Invalid("File must be an HTML file (.html)")
  {
    if Trim(filePath) == [] then
      Invalid("File path is required")
    else if !StartsWith(filePath, "/") then
      Invalid("File path must start with /")
    else if !EndsWith(ToLowerAscii(filePath), ".html") then
      Invalid("File must be an HTML file (.html)")
    else
      Valid()
  }
}
