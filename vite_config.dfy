/**
 * The deployment base path of the build configuration: the repository name
 * is taken from the git remote URL with the pattern `([\w-]+)(\.git)?$`
 * (case-insensitive), falling back to a fixed name, and production builds are
 * served below `/<name>/`. The output of `git config --get remote.origin.url`
 * is a parameter: `None` when the command fails.
 */
module ViteConfig {
  import opened Options
  import opened JsString

  const FallbackRepoName := "craftcode-digital-hub"

  /** `[\w-]`: ASCII letters, digits, `_` and `-`. The `i` flag does not change this class. */
  predicate IsWordChar(c: char) {
    ('A' <= c <= 'Z') || ('a' <= c <= 'z') || ('0' <= c <= '9') || c == '_' || c == '-'
  }

  /** `\.git` under the `i` flag: a dot and the three letters in either case. */
  predicate IsGitSuffix(t: string) {
    |t| == 4 && t[0] == '.' && LowerChar(t[1]) == 'g' && LowerChar(t[2]) == 'i' && LowerChar(t[3]) == 't'
  }

  /** Where the greedy `[\w-]+` that starts at `i` stops: the end of the word run. */
  function RunEnd(s: string, i: nat): (j: nat)
    requires i <= |s|
    ensures i <= j <= |s|
    ensures forall k :: i <= k < j ==> IsWordChar(s[k])
    ensures j < |s| ==> !IsWordChar(s[j])
    decreases |s| - i
  {
    if i < |s| && IsWordChar(s[i]) then RunEnd(s, i + 1) else i
  }

  /**
   * The pattern read literally: group 1 is `s[i..j]`, a non-empty word run,
   * and what follows it is either nothing or `.git`, and then the end.
   */
  predicate RegexAt(s: string, i: nat, j: nat) {
    i < j <= |s| &&
    (forall k :: i <= k < j ==> IsWordChar(s[k])) &&
    (j == |s| || IsGitSuffix(s[j..]))
  }

  /** The attempt at start `i` succeeds: the greedy run is non-empty and reaches the end or `.git`. */
  predicate MatchesAt(s: string, i: nat)
    requires i <= |s|
  {
    var j := RunEnd(s, i);
    i < j && (j == |s| || IsGitSuffix(s[j..]))
  }

  /** `String.prototype.match` without the `g` flag: the leftmost start that succeeds, its group 1. */
  function Search(s: string, i: nat): (r: Option<string>)
    requires i <= |s|
    decreases |s| - i
  {
    if i == |s| then None
    else if MatchesAt(s, i) then Some(s[i..RunEnd(s, i)])
    else Search(s, i + 1)
  }

  /** `remoteUrl.match(/([\w-]+)(\.git)?$/i)`, group 1. */
  function MatchRepo(url: string): Option<string> {
    Search(url, 0)
  }

  /** `getRepoName`: group 1 of the match on the trimmed output, else the fixed name. */
  function GetRepoName(gitOutput: Option<string>): string {
    match gitOutput
    case None => FallbackRepoName
    case Some(out) =>
      match MatchRepo(Trim(out))
      case Some(name) => name
      case None => FallbackRepoName
  }

  /** `base`: `/<repo>/` in production, `/` in every other mode. */
  function Base(mode: string, gitOutput: Option<string>): string {
    if mode == "production" then "/" + GetRepoName(gitOutput) + "/" else "/"
  }

  /** A word run from `i` that reaches `j` makes the greedy run reach at least `j`. */
  lemma {:induction false} RunEndReaches(s: string, i: nat, j: nat)
    requires i <= j <= |s|
    requires forall k :: i <= k < j ==> IsWordChar(s[k])
    ensures RunEnd(s, i) >= j
    decreases j - i
  {
    if i < j {
      RunEndReaches(s, i + 1, j);
    }
  }

  /** The greedy run stops at the first character outside the class. */
  lemma {:induction false} RunEndStops(s: string, i: nat, k: nat)
    requires i <= k < |s| && !IsWordChar(s[k])
    ensures RunEnd(s, i) <= k
    decreases k - i
  {
    if i < k && IsWordChar(s[i]) {
      RunEndStops(s, i + 1, k);
    }
  }

  /** A literal reading of the pattern at `i` has only one end: the greedy run's. */
  lemma RegexAtUnique(s: string, i: nat, j: nat)
    requires RegexAt(s, i, j)
    ensures j == RunEnd(s, i)
  {
    RunEndReaches(s, i, j);
    if j < |s| {
      assert s[j..][0] == s[j];
      RunEndStops(s, i, j);
    }
  }

  /** The start test used by the search agrees with the literal reading of the pattern. */
  lemma MatchesAtIff(s: string, i: nat)
    requires i <= |s|
    ensures MatchesAt(s, i) <==> RegexAt(s, i, RunEnd(s, i))
    ensures forall j :: RegexAt(s, i, j) ==> MatchesAt(s, i)
  {
    forall j | RegexAt(s, i, j)
      ensures MatchesAt(s, i)
    {
      RegexAtUnique(s, i, j);
    }
  }

  /**
   * The search returns the group of the leftmost matching start: some start
   * `k` at or after `i` matches with that group, and no earlier start does.
   */
  lemma {:induction false} SearchLeftmost(s: string, i: nat)
    requires i <= |s|
    ensures Search(s, i).Some? ==> exists k :: (i <= k < |s| && MatchesAt(s, k) &&
      Search(s, i).value == s[k..RunEnd(s, k)] &&
      forall m :: i <= m < k ==> !MatchesAt(s, m))
    ensures Search(s, i).None? ==> forall k :: i <= k < |s| ==> !MatchesAt(s, k)
    decreases |s| - i
  {
    if i == |s| {
    } else if MatchesAt(s, i) {
      assert Search(s, i).value == s[i..RunEnd(s, i)];
    } else {
      assert Search(s, i) == Search(s, i + 1);
      SearchLeftmost(s, i + 1);
      if Search(s, i + 1).Some? {
        var k :| i + 1 <= k < |s| && MatchesAt(s, k) && Search(s, i + 1).value == s[k..RunEnd(s, k)] &&
          forall m :: i + 1 <= m < k ==> !MatchesAt(s, m);
        assert forall m :: i <= m < k ==> !MatchesAt(s, m);
      }
    }
  }

  /** A matched name is a non-empty word run: it holds no '.' and no '/'. */
  lemma MatchedNameShape(url: string)
    requires MatchRepo(url).Some?
    ensures var name := MatchRepo(url).value;
      name != "" && '.' !in name && '/' !in name &&
      forall k :: 0 <= k < |name| ==> IsWordChar(name[k])
  {
    SearchLeftmost(url, 0);
  }

  /** Any name `getRepoName` returns is a single path segment. */
  lemma RepoNameIsSegment(gitOutput: Option<string>)
    ensures GetRepoName(gitOutput) != "" && '/' !in GetRepoName(gitOutput)
  {
    if gitOutput.Some? && MatchRepo(Trim(gitOutput.value)).Some? {
      MatchedNameShape(Trim(gitOutput.value));
    }
  }

  /** No start up to a separator matches when the text from the separator on is not itself `.git`. */
  lemma NoMatchBeforeSeparator(s: string, p: nat, m: nat)
    requires p < |s| && !IsWordChar(s[p]) && !IsGitSuffix(s[p..])
    requires m <= p
    ensures !MatchesAt(s, m)
  {
    RunEndStops(s, m, p);
    var j := RunEnd(s, m);
    if j < p {
      assert s[j..][p - j] == s[p];
    }
  }

  /** The search passes over every start that does not match. */
  lemma {:induction false} SearchSkips(s: string, i: nat, k: nat)
    requires i <= k <= |s|
    requires forall m :: i <= m < k ==> !MatchesAt(s, m)
    ensures Search(s, i) == Search(s, k)
    decreases k - i
  {
    if i < k {
      SearchSkips(s, i + 1, k);
    }
  }

  /**
   * The last segment of a remote URL is the repository name: after any prefix
   * and a separator such as '/' or '.', a word-only name with an optional
   * `.git` (in any case) is what the pattern returns.
   */
  lemma LastSegmentIsRepo(prefix: string, sep: char, name: string, git: string)
    requires !IsWordChar(sep)
    requires name != [] && forall k :: 0 <= k < |name| ==> IsWordChar(name[k])
    requires git == "" || IsGitSuffix(git)
    requires !IsGitSuffix([sep] + name + git)
    ensures MatchRepo(prefix + [sep] + name + git) == Some(name)
  {
    var s := prefix + [sep] + name + git;
    var p := |prefix|;
    var start := p + 1;
    assert s[p] == sep;
    assert s[p..] == [sep] + name + git;
    forall m | 0 <= m < start
      ensures !MatchesAt(s, m)
    {
      NoMatchBeforeSeparator(s, p, m);
    }
    SearchSkips(s, 0, start);
    NameRunAt(prefix, sep, name, git);
  }

  lemma NameRunAt(prefix: string, sep: char, name: string, git: string)
    requires name != [] && forall k :: 0 <= k < |name| ==> IsWordChar(name[k])
    requires git == "" || IsGitSuffix(git)
    ensures var s := prefix + [sep] + name + git;
      var start := |prefix| + 1;
      RunEnd(s, start) == start + |name| && MatchesAt(s, start) && Search(s, start) == Some(name)
  {
    var s := prefix + [sep] + name + git;
    var start := |prefix| + 1;
    assert RegexAt(s, start, start + |name|) by {
      forall k | start <= k < start + |name|
        ensures IsWordChar(s[k])
      {
        assert s[k] == name[k - start];
      }
      assert s[start + |name|..] == git;
    }
    RegexAtUnique(s, start, start + |name|);
    assert s[start..start + |name|] == name;
  }

  /** A GitHub Pages repository gives its last label: `…/x.github.io.git` yields `io`. */
  lemma GitHubPagesExample()
    ensures MatchRepo("https://github.com/user/x.github.io.git") == Some("io")
  {
    var git := ".git";
    assert IsGitSuffix(git);
    LastSegmentIsRepo("https://github.com/user/x.github", '.', "io", git);
    assert "https://github.com/user/x.github" + ['.'] + "io" + git == "https://github.com/user/x.github.io.git";
  }

  /** A URL that ends in '/' matches nothing, so the fixed name is used. */
  lemma TrailingSlashFallsBack(url: string)
    requires url != [] && url[|url| - 1] == '/'
    ensures MatchRepo(url) == None
    ensures forall out :: Trim(out) == url ==> GetRepoName(Some(out)) == FallbackRepoName
  {
    forall k | 0 <= k < |url|
      ensures !MatchesAt(url, k)
    {
      var j := RunEnd(url, k);
      assert j < |url|;
      var t := url[j..];
      assert t[|t| - 1] == '/';
    }
    SearchLeftmost(url, 0);
  }

  /** A failing git command gives the fixed name. */
  lemma GitFailureFallsBack()
    ensures GetRepoName(None) == FallbackRepoName
  {
  }

  /** Every mode other than `production` is served from the root. */
  lemma BaseOutsideProduction(mode: string, gitOutput: Option<string>)
    requires mode != "production"
    ensures Base(mode, gitOutput) == "/"
  {
  }

  /** A production base is one path segment between two slashes. */
  lemma BaseInProduction(gitOutput: Option<string>)
    ensures var b := Base("production", gitOutput);
      |b| >= 3 && b[0] == '/' && b[|b| - 1] == '/' && '/' !in b[1..|b| - 1] &&
      b[1..|b| - 1] == GetRepoName(gitOutput)
  {
    var name := GetRepoName(gitOutput);
    RepoNameIsSegment(gitOutput);
    var b := "/" + name + "/";
    assert b[1..|b| - 1] == name;
  }
}
