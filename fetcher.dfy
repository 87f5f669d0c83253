// The workflow specification fetcher of reana_server/fetcher.py: parsing of
// the launcher URL, the choice of a Git, Zip or Yaml fetcher, the generation
// of workflow names, the selection of the specification file inside the
// output directory and the byte counting that enforces the download limit.
module Fetcher {
  import opened Wrappers
  import opened Text
  import opened Paths

  // ---------------------------------------------------------------------
  // Configuration

  const Slash := "/"
  const DoubleSlash := "//"
  const Dash := "-"
  const TreeSegment := "tree"
  const ArchiveSegment := "archive"

  /**
   * The configuration the fetcher reads. `replaced` is the character class
   * of `REGEX_CHARS_TO_REPLACE`: every maximal run of such characters is
   * replaced by one dash.
   */
  datatype Config = Config(
    allowedSchemes: set<string>,
    gitlabHosts: set<string>,
    specExtensions: set<string>,
    specFilenames: seq<string>,
    replaced: char -> bool)

  // ---------------------------------------------------------------------
  // `urllib.parse.urlparse`, reduced to the scheme, network location and path

  predicate IsAsciiLetter(c: char) { 'a' <= c <= 'z' || 'A' <= c <= 'Z' }

  predicate IsAsciiDigit(c: char) { '0' <= c <= '9' }

  predicate IsSchemeChar(c: char) { IsAsciiLetter(c) || IsAsciiDigit(c) || c == '+' || c == '-' || c == '.' }

  predicate AllSchemeChars(s: string)
  {
    forall k :: 0 <= k < |s| ==> IsSchemeChar(s[k])
  }

  /** The index of the colon that ends a scheme, if the URL starts with one. */
  function SchemeEnd(url: string): (r: Option<nat>)
    ensures r.Some? ==> 0 < r.value < |url| && url[r.value] == ':'
  {
    if ':' in url then
      var i := FirstIndex(url, ':');
      if i > 0 && IsAsciiLetter(url[0]) && AllSchemeChars(url[..i]) then Some(i) else None
    else None
  }

  /** The scheme (lower-cased) and the rest of the URL after its colon. */
  function SplitScheme(url: string): (r: (string, string))
    ensures |r.1| <= |url| && r.1 == url[|url| - |r.1|..]
  {
    match SchemeEnd(url)
    case Some(i) => (Lower(url[..i]), url[i + 1..])
    case None => ("", url)
  }

  predicate IsDelimiter(c: char) { c == '/' || c == '?' || c == '#' }

  /** The index of the first '/', '?' or '#', or the length. */
  function FirstDelimiter(s: string): (i: nat)
    ensures i <= |s|
    ensures forall k :: 0 <= k < i ==> !IsDelimiter(s[k])
    ensures i < |s| ==> IsDelimiter(s[i])
  {
    if s == [] then 0 else if IsDelimiter(s[0]) then 0 else 1 + FirstDelimiter(s[1..])
  }

  /** The network location and the rest of `rest`. */
  function SplitNetloc(rest: string): (r: (string, string))
    ensures |r.1| <= |rest| && r.1 == rest[|rest| - |r.1|..]
    ensures forall k :: 0 <= k < |r.0| ==> !IsDelimiter(r.0[k])
  {
    if |rest| >= 2 && rest[..2] == DoubleSlash then
      var d := 2 + FirstDelimiter(rest[2..]);
      assert forall k :: 0 <= k < d - 2 ==> rest[2..d][k] == rest[2..][k];
      (rest[2..d], rest[d..])
    else ("", rest)
  }

  /** The part of `s` before the first `c`. */
  function CutAt(s: string, c: char): (r: string)
    ensures r <= s && c !in r
  {
    if c in s then s[..FirstIndex(s, c)] else s
  }

  datatype UrlParts = UrlParts(scheme: string, netloc: string, path: string)

  /** `urlparse(url)`: scheme, network location and path (query and fragment cut off). */
  function UrlSplit(url: string): (u: UrlParts)
    ensures '?' !in u.path && '#' !in u.path
    ensures forall k :: 0 <= k < |u.netloc| ==> !IsDelimiter(u.netloc[k])
  {
    var (scheme, rest) := SplitScheme(url);
    var (netloc, rest2) := SplitNetloc(rest);
    var path := CutAt(CutAt(rest2, '#'), '?');
    assert '#' !in path by {
      assert path <= CutAt(rest2, '#');
    }
    UrlParts(scheme, netloc, path)
  }

  /** The part of `s` after its last `c` (all of `s` when there is none). */
  function AfterLast(s: string, c: char): string
  {
    s[RFind(s, c) + 1..]
  }

  /**
   * `urlparse(url).hostname`: user information and port removed, the brackets
   * of an IPv6 address dropped, lower-cased, None if empty.
   */
  function Hostname(netloc: string): (h: Option<string>)
    ensures h.Some? ==> h.value != ""
  {
    var host := HostOf(AfterLast(netloc, '@'));
    if host == "" then None else Some(Lower(host))
  }

  /** The host of a network location without user information: inside the brackets, or before the port. */
  function HostOf(hostinfo: string): (host: string)
    ensures '[' in hostinfo ==> ']' !in host
    ensures '[' !in hostinfo ==> host <= hostinfo && ':' !in host
  {
    if '[' in hostinfo then CutAt(hostinfo[FirstIndex(hostinfo, '[') + 1..], ']') else CutAt(hostinfo, ':')
  }

  lemma {:induction false} CutAtFirst(a: string, c: char, rest: string)
    requires c !in a
    ensures CutAt(a + [c] + rest, c) == a
  {
    FirstIndexAfter(a, c, rest);
    assert (a + [c] + rest)[..|a|] == a;
  }

  lemma {:induction false} FirstIndexAfter(a: string, c: char, rest: string)
    requires c !in a
    ensures c in a + [c] + rest && FirstIndex(a + [c] + rest, c) == |a|
  {
    assert (a + [c] + rest)[|a|] == c;
    if a != [] {
      assert (a + [c] + rest)[1..] == a[1..] + [c] + rest;
      FirstIndexAfter(a[1..], c, rest);
    }
  }

  lemma AfterLastAbsent(s: string, c: char)
    requires c !in s
    ensures AfterLast(s, c) == s
  {
  }

  lemma HostOfBracketed(s: string, addr: string, port: string)
    requires ']' !in addr && s != [] && s[0] == '[' && s[1..] == addr + [']'] + port
    ensures HostOf(s) == addr
  {
    assert FirstIndex(s, '[') == 0;
    CutAtFirst(addr, ']', port);
  }

  lemma NoCharIn(c: char, addr: string, port: string)
    requires c !in addr && c !in port && c != '[' && c != ']'
    ensures c !in "[" + addr + "]" + port
  {
    assert "[" + addr + "]" + port == ['['] + addr + [']'] + port;
  }

  /** A bracketed IPv6 address loses its brackets and its port: `[::1]:8080` has the host `::1`. */
  lemma BracketedHost(addr: string, port: string)
    requires addr != [] && '@' !in addr && '[' !in addr && ']' !in addr && '@' !in port
    ensures Hostname("[" + addr + "]" + port) == Some(Lower(addr))
  {
    var s := "[" + addr + "]" + port;
    assert s[1..] == addr + [']'] + port;
    NoCharIn('@', addr, port);
    AfterLastAbsent(s, '@');
    HostOfBracketed(s, addr, port);
  }

  /** The attributes of a `ParsedUrl`. */
  datatype ParsedUrl = ParsedUrl(
    originalUrl: string,
    path: string,
    dirname: string,
    basename: string,
    stem: string,
    extension: string,
    hostname: Option<string>,
    netloc: string,
    scheme: string)

  /** `ParsedUrl(url)`. */
  function Parse(url: string): (p: ParsedUrl)
    ensures p.originalUrl == url
    ensures p.path == [] || p.path[|p.path| - 1] != '/'
    ensures '/' !in p.basename && p.stem + p.extension == p.basename
  {
    var u := UrlSplit(url);
    var path := RStrip(u.path, {'/'});
    assert path == [] || path[|path| - 1] != '/';
    var split := PosixSplit(path);
    var ext := SplitExt(split.1);
    assert '/' !in split.1 && ext.0 + ext.1 == split.1;
    ParsedUrl(url, path, split.0, split.1, ext.0, ext.1, Hostname(u.netloc), u.netloc, u.scheme)
  }

  /** Two parsed URLs that agree on everything derived from the URL. */
  predicate SameComponents(a: ParsedUrl, b: ParsedUrl)
  {
    a.path == b.path && a.dirname == b.dirname && a.basename == b.basename && a.stem == b.stem
    && a.extension == b.extension && a.hostname == b.hostname && a.netloc == b.netloc && a.scheme == b.scheme
  }

  lemma {:induction false} FirstIndexAppend(s: string, t: string, c: char)
    requires c in s
    ensures c in s + t && FirstIndex(s + t, c) == FirstIndex(s, c)
  {
    if s[0] != c {
      assert (s + t)[1..] == s[1..] + t;
      FirstIndexAppend(s[1..], t, c);
    }
  }

  lemma {:induction false} FirstDelimiterAppendSlash(s: string)
    ensures FirstDelimiter(s + "/") == FirstDelimiter(s)
  {
    if s != [] && !IsDelimiter(s[0]) {
      assert (s + "/")[1..] == s[1..] + "/";
      FirstDelimiterAppendSlash(s[1..]);
    }
  }

  lemma {:induction false} RStripAppendSlash(s: string)
    ensures RStrip(s + "/", {'/'}) == RStrip(s, {'/'})
  {
    assert (s + "/")[..|s + "/"| - 1] == s;
  }

  lemma SchemeEndAppendSlash(url: string)
    ensures SchemeEnd(url + "/") == SchemeEnd(url)
  {
    if ':' in url {
      FirstIndexAppend(url, "/", ':');
      var i := FirstIndex(url, ':');
      assert (url + "/")[..i] == url[..i];
    } else {
      assert ':' !in url + "/";
    }
  }

  lemma SchemeAppendSlash(url: string)
    ensures SplitScheme(url + "/").0 == SplitScheme(url).0
    ensures SplitScheme(url + "/").1 == SplitScheme(url).1 + "/"
  {
    SchemeEndAppendSlash(url);
    match SchemeEnd(url)
    case Some(i) =>
      assert (url + "/")[..i] == url[..i];
      assert (url + "/")[i + 1..] == url[i + 1..] + "/";
    case None =>
  }

  lemma NetlocAppendSlash(rest: string)
    ensures var a, b := SplitNetloc(rest), SplitNetloc(rest + "/");
      b.0 == a.0 && (b.1 == a.1 + "/" || (a.1 == "/" && b.1 == ""))
  {
    var rest' := rest + "/";
    if |rest| >= 2 && rest[..2] == DoubleSlash {
      assert rest'[..2] == DoubleSlash;
      assert rest'[2..] == rest[2..] + "/";
      FirstDelimiterAppendSlash(rest[2..]);
      var d := 2 + FirstDelimiter(rest[2..]);
      assert rest'[2..d] == rest[2..d];
      if d < |rest| {
        assert rest'[d..] == rest[d..] + "/";
      }
    } else if rest == "/" {
      assert rest'[..2] == DoubleSlash && rest'[2..] == [];
    } else {
      if |rest| >= 2 {
        assert rest'[..2] == rest[..2];
      } else if |rest| == 1 {
        assert rest == [rest[0]] && rest[0] != '/';
        assert rest'[0] == rest[0];
      }
      assert !(|rest'| >= 2 && rest'[..2] == DoubleSlash);
    }
  }

  lemma UrlSplitAppendSlash(url: string)
    requires '?' !in url && '#' !in url
    ensures var a, b := UrlSplit(url), UrlSplit(url + "/");
      a.scheme == b.scheme && a.netloc == b.netloc && RStrip(a.path, {'/'}) == RStrip(b.path, {'/'})
  {
    var url' := url + "/";
    assert '?' !in url' && '#' !in url';
    SchemeAppendSlash(url);
    var rest, rest' := SplitScheme(url).1, SplitScheme(url').1;
    NoQueryInSuffix(url, rest);
    NoQueryInSuffix(url', rest');
    NetlocAppendSlash(rest);
    var r2, r2' := SplitNetloc(rest).1, SplitNetloc(rest').1;
    NoQueryInSuffix(rest, r2);
    NoQueryInSuffix(rest', r2');
    assert UrlSplit(url).path == r2;
    assert UrlSplit(url').path == r2';
    if r2' == r2 + "/" {
      RStripAppendSlash(r2);
    } else {
      assert RStrip(r2, {'/'}) == "" == RStrip(r2', {'/'});
    }
  }

  lemma NoQueryInSuffix(s: string, t: string)
    requires '?' !in s && '#' !in s
    requires |t| <= |s| && t == s[|s| - |t|..]
    ensures '?' !in t && '#' !in t
  {
  }

  /**
   * A slash appended to a URL without query or fragment changes nothing that
   * the fetcher reads, because the path is right-stripped of slashes.
   */
  lemma TrailingSlashIrrelevant(url: string)
    requires '?' !in url && '#' !in url
    ensures SameComponents(Parse(url + "/"), Parse(url))
  {
    UrlSplitAppendSlash(url);
  }

  // ---------------------------------------------------------------------
  // Workflow names

  /** The suffix of `s` after its leading characters of the class `bad`. */
  function DropReplaced(s: string, bad: char -> bool): (r: string)
    ensures |r| <= |s| && r == s[|s| - |r|..]
    ensures r == [] || !bad(r[0])
  {
    if s != [] && bad(s[0]) then DropReplaced(s[1..], bad) else s
  }

  /** `REGEX_CHARS_TO_REPLACE.sub("-", s)`: each maximal run of `bad` characters becomes one dash. */
  function ReplaceRuns(s: string, bad: char -> bool): (r: string)
    ensures (r == []) == (s == [])
    ensures s != [] && !bad(s[0]) ==> r[0] == s[0]
    ensures s != [] && bad(s[0]) ==> r[0] == '-'
    decreases |s|
  {
    if s == [] then []
    else if bad(s[0]) then Dash + ReplaceRuns(DropReplaced(s[1..], bad), bad)
    else [s[0]] + ReplaceRuns(s[1..], bad)
  }

  predicate NoDoubleDash(s: string)
  {
    forall k :: 0 <= k < |s| - 1 ==> !(s[k] == '-' && s[k + 1] == '-')
  }

  /** No replaced character is left but the dash, and (when the dash is itself replaced) no two dashes meet. */
  predicate DashRuns(s: string, bad: char -> bool)
  {
    && (forall k :: 0 <= k < |s| ==> s[k] == '-' || !bad(s[k]))
    && (bad('-') ==> NoDoubleDash(s))
  }

  /** The replacement leaves only dashes of the replaced class, never two of them side by side. */
  lemma {:induction false} ReplaceRunsShape(s: string, bad: char -> bool)
    ensures DashRuns(ReplaceRuns(s, bad), bad)
    decreases |s|
  {
    if s != [] {
      if bad(s[0]) {
        var t := DropReplaced(s[1..], bad);
        ReplaceRunsShape(t, bad);
        DashPrefix(ReplaceRuns(t, bad), bad);
      } else {
        ReplaceRunsShape(s[1..], bad);
        CharPrefix(s[0], ReplaceRuns(s[1..], bad), bad);
      }
    }
  }

  lemma DashPrefix(t: string, bad: char -> bool)
    requires DashRuns(t, bad) && (t == [] || !bad(t[0]))
    ensures DashRuns(Dash + t, bad)
  {
    var r := Dash + t;
    assert forall k :: 1 <= k < |r| ==> r[k] == t[k - 1];
  }

  lemma CharPrefix(c: char, t: string, bad: char -> bool)
    requires DashRuns(t, bad) && !bad(c)
    ensures DashRuns([c] + t, bad)
  {
    var r := [c] + t;
    assert forall k :: 1 <= k < |r| ==> r[k] == t[k - 1];
  }

  /** A slice of a string keeps its dash runs. */
  lemma SliceDashRuns(s: string, i: nat, j: nat, bad: char -> bool)
    requires i <= j <= |s| && DashRuns(s, bad)
    ensures DashRuns(s[i..j], bad)
  {
    assert forall k :: 0 <= k < j - i ==> s[i..j][k] == s[i + k];
  }

  /** `_clean_workflow_name(name)`. */
  function Clean(name: string, bad: char -> bool): string
  {
    Strip(ReplaceRuns(name, bad), {'-'})
  }

  /** What a cleaned name looks like. */
  predicate IsCleanName(s: string, bad: char -> bool)
  {
    && (s == [] || (s[0] != '-' && s[|s| - 1] != '-'))
    && DashRuns(s, bad)
  }

  lemma RStripDashRuns(r: string, bad: char -> bool)
    requires DashRuns(r, bad)
    ensures DashRuns(RStrip(r, {'-'}), bad)
  {
    var m := RStrip(r, {'-'});
    assert m == r[0..|m|];
    SliceDashRuns(r, 0, |m|, bad);
  }

  lemma LStripDashRuns(m: string, bad: char -> bool)
    requires DashRuns(m, bad)
    ensures DashRuns(LStrip(m, {'-'}), bad)
  {
    var c := LStrip(m, {'-'});
    SliceDashRuns(m, |m| - |c|, |m|, bad);
  }

  /** A cleaned name never starts or ends with a dash and holds no replaced character. */
  lemma CleanIsClean(name: string, bad: char -> bool)
    ensures IsCleanName(Clean(name, bad), bad)
  {
    ReplaceRunsShape(name, bad);
    RStripDashRuns(ReplaceRuns(name, bad), bad);
    LStripDashRuns(RStrip(ReplaceRuns(name, bad), {'-'}), bad);
  }

  /** A replaced first character of a string with dash runs is a dash, and what follows it is kept. */
  lemma DashHead(s: string, bad: char -> bool)
    requires DashRuns(s, bad) && s != [] && bad(s[0])
    ensures s[0] == '-' && (|s| == 1 || !bad(s[1]))
  {
    if |s| > 1 {
      assert !(s[0] == '-' && s[1] == '-');
    }
  }

  lemma {:induction false} ReplaceRunsOfClean(s: string, bad: char -> bool)
    requires DashRuns(s, bad)
    ensures ReplaceRuns(s, bad) == s
    decreases |s|
  {
    if s != [] {
      var t := s[1..];
      SliceDashRuns(s, 1, |s|, bad);
      ReplaceRunsOfClean(t, bad);
      if bad(s[0]) {
        DashHead(s, bad);
        assert DropReplaced(t, bad) == t;
        assert s == Dash + t;
      } else {
        assert s == [s[0]] + t;
      }
    }
  }

  /** Cleaning is idempotent: a generated name is its own cleaned form. */
  lemma CleanIdempotent(name: string, bad: char -> bool)
    ensures Clean(Clean(name, bad), bad) == Clean(name, bad)
  {
    var c := Clean(name, bad);
    CleanIsClean(name, bad);
    ReplaceRunsOfClean(c, bad);
    StripUnchanged(c, {'-'});
  }

  // ---------------------------------------------------------------------
  // Fetchers

  datatype Fetcher =
    | GitFetcher(url: ParsedUrl, outputDir: string, gitRef: Option<string>, spec: Option<string>)
    | ZipFetcher(url: ParsedUrl, outputDir: string, spec: Option<string>, workflowName: string)
    | YamlFetcher(url: ParsedUrl, outputDir: string, spec: Option<string>)

  /** `WorkflowFetcherZip(...)`: the name is fixed when the fetcher is built. */
  function MakeZip(url: ParsedUrl, outputDir: string, spec: Option<string>, workflowName: Option<string>, bad: char -> bool): (f: Fetcher)
    ensures f.ZipFetcher? && f.url == url && f.spec == spec
    ensures f.workflowName == Clean(if TruthyStr(workflowName) then workflowName.value else url.stem, bad)
  {
    ZipFetcher(url, outputDir, spec,
      if TruthyStr(workflowName) then Clean(workflowName.value, bad) else Clean(url.stem, bad))
  }

  /** `WorkflowFetcherYaml(...)`: the specification is the URL's basename. */
  function MakeYaml(url: ParsedUrl, outputDir: string): Fetcher
  {
    YamlFetcher(url, outputDir, Some(url.basename))
  }

  /** `generate_workflow_name()` of the three fetchers. */
  function GenerateWorkflowName(f: Fetcher, cfg: Config): string
  {
    match f
    case GitFetcher(url, _, gitRef, _) =>
      Clean(if TruthyStr(gitRef) then url.stem + Dash + gitRef.value else url.stem, cfg.replaced)
    case YamlFetcher(url, _, _) =>
      var standard := if url.basename in cfg.specFilenames then Clean(url.dirname, cfg.replaced) else "";
      if standard != "" then standard else Clean(url.dirname + Dash + url.stem, cfg.replaced)
    case ZipFetcher(_, _, _, name) => name
  }

  /** Every generated name is a cleaned name: no leading or trailing dash. */
  lemma GeneratedNameIsClean(f: Fetcher, cfg: Config)
    requires NameIsFixed(f, cfg)
    ensures IsCleanName(GenerateWorkflowName(f, cfg), cfg.replaced)
  {
    match f
    case GitFetcher(url, _, gitRef, _) =>
      CleanIsClean(if TruthyStr(gitRef) then url.stem + Dash + gitRef.value else url.stem, cfg.replaced);
    case YamlFetcher(url, _, _) =>
      CleanIsClean(url.dirname, cfg.replaced);
      CleanIsClean(url.dirname + Dash + url.stem, cfg.replaced);
    case ZipFetcher(_, _, _, _) =>
  }

  // ---------------------------------------------------------------------
  // `_match_url` with the GitHub and GitLab rules

  /** The components a rule binds: `username`, `repository`, `git_ref`, `zip_path`. */
  datatype Route = Route(username: string, repository: string, gitRef: Option<string>, zipPath: Option<string>)

  /** The path's segments, leading slashes dropped as the router does. */
  function Segments(path: string): seq<string>
  {
    Split(LStrip(path, {'/'}), '/')
  }

  predicate HasEmptySegment(s: seq<string>)
  {
    exists k :: 0 <= k < |s| && s[k] == ""
  }

  const GitSuffix := ".git"

  predicate EndsWithGit(s: string)
  {
    |s| > 4 && s[|s| - 4..] == GitSuffix
  }

  /** `/<user>/<repository>/` or `/<user>/<repository>.git/`; the latter wins. */
  function RepositoryRoute(username: string, last: string): (r: Route)
    ensures r.gitRef.None? && r.zipPath.None? && r.username == username
    ensures EndsWithGit(last) ==> r.repository + GitSuffix == last
    ensures !EndsWithGit(last) ==> r.repository == last
  {
    if EndsWithGit(last) then
      assert last[..|last| - 4] + last[|last| - 4..] == last;
      Route(username, last[..|last| - 4], None, None)
    else Route(username, last, None, None)
  }

  /** The four GitHub rules over the path's segments. */
  function MatchGitHub(path: string): (r: Option<Route>)
    ensures r.Some? ==> r.value.username != "" && r.value.repository != ""
  {
    MatchGitHubSegments(Segments(path))
  }

  function MatchGitHubSegments(s: seq<string>): (r: Option<Route>)
    ensures r.Some? ==> r.value.username != "" && r.value.repository != ""
  {
    if HasEmptySegment(s) then None
    else if |s| == 2 then Some(RepositoryRoute(s[0], s[1]))
    else if |s| >= 4 && s[2] == TreeSegment then Some(Route(s[0], s[1], Some(Join(s[3..], '/')), None))
    else if |s| >= 4 && s[2] == ArchiveSegment then Some(Route(s[0], s[1], None, Some(Join(s[3..], '/'))))
    else None
  }

  /** The first `j >= from` where `-/tree/...` or `-/archive/...` starts with something after it. */
  function FirstMarker(s: seq<string>, from: nat): (r: Option<nat>)
    ensures r.Some? ==>
      from <= r.value && r.value + 2 < |s| && s[r.value] == Dash && (s[r.value + 1] == TreeSegment || s[r.value + 1] == ArchiveSegment)
    ensures r.None? ==> forall j :: from <= j && j + 2 < |s| ==> !(s[j] == Dash && (s[j + 1] == TreeSegment || s[j + 1] == ArchiveSegment))
    decreases |s| - from
  {
    if from + 2 >= |s| then None
    else if s[from] == Dash && (s[from + 1] == TreeSegment || s[from + 1] == ArchiveSegment) then Some(from)
    else FirstMarker(s, from + 1)
  }

  /**
   * The four GitLab rules: the username may span several segments, so the
   * first `-/tree` or `-/archive` marker after at least two segments splits
   * the path; otherwise the last segment is the repository.
   */
  function MatchGitLab(path: string): (r: Option<Route>)
    ensures r.Some? ==> r.value.username != "" && r.value.repository != ""
  {
    MatchGitLabSegments(Segments(path))
  }

  function MatchGitLabSegments(s: seq<string>): (r: Option<Route>)
    ensures r.Some? ==> r.value.username != "" && r.value.repository != ""
  {
    if HasEmptySegment(s) then None
    else match FirstMarker(s, 2)
      case Some(j) =>
        Some(Route(Join(s[..j - 1], '/'), s[j - 1],
          if s[j + 1] == TreeSegment then Some(Join(s[j + 2..], '/')) else None,
          if s[j + 1] == ArchiveSegment then Some(Join(s[j + 2..], '/')) else None))
      case None =>
        if |s| >= 2 then Some(RepositoryRoute(Join(s[..|s| - 1], '/'), s[|s| - 1])) else None
  }

  /** Path segments as the rules expect them: non-empty and free of slashes. */
  predicate ProperSegments(parts: seq<string>)
  {
    forall k :: 0 <= k < |parts| ==> parts[k] != "" && '/' !in parts[k]
  }

  /** The path "/a/b/c" for the segments [a, b, c]. */
  function PathOf(parts: seq<string>): string
  {
    Slash + Join(parts, '/')
  }

  lemma {:induction false} JoinStartsWithFirst(parts: seq<string>, c: char)
    requires |parts| >= 1 && parts[0] != ""
    ensures Join(parts, c) != "" && Join(parts, c)[0] == parts[0][0]
  {
  }

  /** The router sees exactly the segments the path was built from. */
  lemma SegmentsOfPath(parts: seq<string>)
    requires |parts| >= 1 && ProperSegments(parts)
    ensures Segments(PathOf(parts)) == parts
  {
    var j := Join(parts, '/');
    JoinStartsWithFirst(parts, '/');
    assert parts[0][0] != '/' by { assert parts[0][0] in parts[0]; }
    assert (Slash + j)[1..] == j;
    assert LStrip(Slash + j, {'/'}) == j;
    SplitJoin(parts, '/');
  }

  /** Both routers read proper segments back from the path built of them. */
  lemma MatchOfPath(parts: seq<string>)
    requires |parts| >= 1 && ProperSegments(parts)
    ensures !HasEmptySegment(parts)
    ensures MatchGitHub(PathOf(parts)) == MatchGitHubSegments(parts)
    ensures MatchGitLab(PathOf(parts)) == MatchGitLabSegments(parts)
  {
    SegmentsOfPath(parts);
  }

  lemma SegmentNamesDiffer()
    ensures TreeSegment != ArchiveSegment && Dash != TreeSegment && Dash != ArchiveSegment
  {
    assert |TreeSegment| == 4 && |ArchiveSegment| == 7 && |Dash| == 1;
  }

  /** GitHub: `/<user>/<repo>/tree/<ref>` binds the ref, which may contain slashes. */
  lemma GitHubTreeRoute(parts: seq<string>)
    requires |parts| >= 4 && ProperSegments(parts) && parts[2] == TreeSegment
    ensures MatchGitHub(PathOf(parts)) == Some(Route(parts[0], parts[1], Some(Join(parts[3..], '/')), None))
  {
    MatchOfPath(parts);
  }

  /** GitHub: `/<user>/<repo>/archive/<path>` binds the archive path. */
  lemma GitHubArchiveRoute(parts: seq<string>)
    requires |parts| >= 4 && ProperSegments(parts) && parts[2] == ArchiveSegment
    ensures MatchGitHub(PathOf(parts)) == Some(Route(parts[0], parts[1], None, Some(Join(parts[3..], '/'))))
  {
    MatchOfPath(parts);
    SegmentNamesDiffer();
  }

  /** GitHub: `/<user>/<repo>` and `/<user>/<repo>.git` are repository URLs without a ref. */
  lemma GitHubRepositoryRoute(parts: seq<string>)
    requires |parts| == 2 && ProperSegments(parts)
    ensures MatchGitHub(PathOf(parts)) == Some(RepositoryRoute(parts[0], parts[1]))
  {
    MatchOfPath(parts);
  }

  /** The `.git` suffix is not part of the repository name. */
  lemma GitSuffixDropped(user: string, repo: string)
    requires repo != ""
    ensures RepositoryRoute(user, repo + GitSuffix) == Route(user, repo, None, None)
  {
    var last := repo + GitSuffix;
    assert last[|last| - 4..] == GitSuffix;
    assert last[..|last| - 4] == repo;
  }

  /** GitHub: any other shape of path is not a valid GitHub URL. */
  lemma GitHubOtherShapesRejected(parts: seq<string>)
    requires |parts| >= 1 && ProperSegments(parts)
    requires |parts| == 1 || |parts| == 3 || (|parts| >= 4 && parts[2] != TreeSegment && parts[2] != ArchiveSegment)
    ensures MatchGitHub(PathOf(parts)).None?
  {
    MatchOfPath(parts);
  }

  lemma GitLabMarkerSegments(parts: seq<string>, j: nat)
    requires !HasEmptySegment(parts) && 2 <= j && j + 2 < |parts|
    requires parts[j] == Dash && (parts[j + 1] == TreeSegment || parts[j + 1] == ArchiveSegment)
    requires forall i :: 0 <= i < j ==> parts[i] != Dash
    ensures MatchGitLabSegments(parts) == Some(Route(Join(parts[..j - 1], '/'), parts[j - 1],
      if parts[j + 1] == TreeSegment then Some(Join(parts[j + 2..], '/')) else None,
      if parts[j + 1] == ArchiveSegment then Some(Join(parts[j + 2..], '/')) else None))
  {
    FirstMarkerIs(parts, 2, j);
  }

  /** GitLab: the user may span several segments before `/-/tree/<ref>` or `/-/archive/<path>`. */
  lemma GitLabMarkerRoute(parts: seq<string>, j: nat)
    requires ProperSegments(parts) && 2 <= j && j + 2 < |parts|
    requires parts[j] == Dash && (parts[j + 1] == TreeSegment || parts[j + 1] == ArchiveSegment)
    requires forall i :: 0 <= i < j ==> parts[i] != Dash
    ensures MatchGitLab(PathOf(parts)) == Some(Route(Join(parts[..j - 1], '/'), parts[j - 1],
      if parts[j + 1] == TreeSegment then Some(Join(parts[j + 2..], '/')) else None,
      if parts[j + 1] == ArchiveSegment then Some(Join(parts[j + 2..], '/')) else None))
  {
    MatchOfPath(parts);
    GitLabMarkerSegments(parts, j);
  }

  /** GitLab: without a marker, the last segment is the repository and the others the user. */
  lemma GitLabRepositoryRoute(parts: seq<string>)
    requires |parts| >= 2 && ProperSegments(parts)
    requires forall i :: 0 <= i < |parts| - 1 ==> parts[i] != Dash
    ensures MatchGitLab(PathOf(parts)) == Some(RepositoryRoute(Join(parts[..|parts| - 1], '/'), parts[|parts| - 1]))
  {
    MatchOfPath(parts);
    FirstMarkerNone(parts, 2);
  }

  lemma {:induction false} FirstMarkerNone(s: seq<string>, from: nat)
    requires forall i :: from <= i < |s| - 1 ==> s[i] != Dash
    ensures FirstMarker(s, from).None?
    decreases |s| - from
  {
    if from + 2 < |s| {
      FirstMarkerNone(s, from + 1);
    }
  }

  lemma {:induction false} FirstMarkerIs(s: seq<string>, from: nat, j: nat)
    requires from <= j && j + 2 < |s| && s[j] == Dash && (s[j + 1] == TreeSegment || s[j + 1] == ArchiveSegment)
    requires forall i :: from <= i < j ==> s[i] != Dash
    ensures FirstMarker(s, from) == Some(j)
    decreases j - from
  {
    if from < j {
      FirstMarkerIs(s, from + 1, j);
    }
  }

  const NoneText := "None"
  const InvalidUrlPrefix := "The provided "
  const InvalidUrlSuffix := " URL is not valid"

  function HostForMessage(h: Option<string>): string
  {
    match h
    case None => NoneText
    case Some(v) => v
  }

  function InvalidUrlMessage(url: ParsedUrl): string
  {
    InvalidUrlPrefix + HostForMessage(url.hostname) + InvalidUrlSuffix
  }

  const GitHubHost := "github.com"
  const GitHubUrlPrefix := "https://github.com/"
  const HttpsPrefix := "https://"

  /** The Git URL of a repository on a host: `<prefix><user>/<repository>.git`. */
  function RepositoryUrl(prefix: string, m: Route): string
  {
    prefix + m.username + Slash + m.repository + GitSuffix
  }

  /** `_get_github_fetcher`. */
  function GitHubFetcher(url: ParsedUrl, outputDir: string, spec: Option<string>, cfg: Config): Result<Fetcher, string>
  {
    match MatchGitHub(url.path)
    case None => Err(InvalidUrlMessage(url))
    case Some(m) =>
      if TruthyStr(m.zipPath) then
        Ok(MakeZip(url, outputDir, spec, Some(m.repository + Dash + url.stem), cfg.replaced))
      else
        Ok(GitFetcher(Parse(RepositoryUrl(GitHubUrlPrefix, m)), outputDir, m.gitRef, spec))
  }

  /** A GitHub URL is rejected exactly when none of the GitHub rules matches its path. */
  lemma GitHubInvalidIffUnmatched(url: ParsedUrl, outputDir: string, spec: Option<string>, cfg: Config)
    ensures MatchGitHub(url.path).None? <==> GitHubFetcher(url, outputDir, spec, cfg) == Err(InvalidUrlMessage(url))
    ensures GitHubFetcher(url, outputDir, spec, cfg).Err? ==> MatchGitHub(url.path).None?
  {
  }

  /** An archive route keeps the URL and names the workflow after the repository and the archive's stem. */
  lemma GitHubArchiveFetcher(url: ParsedUrl, outputDir: string, spec: Option<string>, cfg: Config)
    requires MatchGitHub(url.path).Some? && TruthyStr(MatchGitHub(url.path).value.zipPath)
    ensures var m, r := MatchGitHub(url.path).value, GitHubFetcher(url, outputDir, spec, cfg);
      r.Ok? && r.value.ZipFetcher? && r.value.url == url
      && r.value.workflowName == Clean(m.repository + Dash + url.stem, cfg.replaced)
  {
    var m := MatchGitHub(url.path).value;
    assert GitHubFetcher(url, outputDir, spec, cfg) == Ok(MakeZip(url, outputDir, spec, Some(m.repository + Dash + url.stem), cfg.replaced));
  }

  /** Any other GitHub route clones the repository from github.com at the matched ref. */
  lemma GitHubCloneFetcher(url: ParsedUrl, outputDir: string, spec: Option<string>, cfg: Config)
    requires MatchGitHub(url.path).Some? && !TruthyStr(MatchGitHub(url.path).value.zipPath)
    ensures var m, r := MatchGitHub(url.path).value, GitHubFetcher(url, outputDir, spec, cfg);
      r.Ok? && r.value.GitFetcher? && r.value.url.originalUrl == RepositoryUrl(GitHubUrlPrefix, m) && r.value.gitRef == m.gitRef
  {
  }

  /** `_get_gitlab_fetcher`. */
  function GitLabFetcher(url: ParsedUrl, outputDir: string, spec: Option<string>, cfg: Config): Result<Fetcher, string>
  {
    match MatchGitLab(url.path)
    case None => Err(InvalidUrlMessage(url))
    case Some(m) =>
      if TruthyStr(m.zipPath) then
        Ok(MakeZip(url, outputDir, spec, Some(url.stem), cfg.replaced))
      else
        Ok(GitFetcher(Parse(RepositoryUrl(HttpsPrefix + HostForMessage(url.hostname) + Slash, m)),
          outputDir, m.gitRef, spec))
  }

  /** A GitLab URL is rejected exactly when none of the GitLab rules matches its path. */
  lemma GitLabInvalidIffUnmatched(url: ParsedUrl, outputDir: string, spec: Option<string>, cfg: Config)
    ensures MatchGitLab(url.path).None? <==> GitLabFetcher(url, outputDir, spec, cfg) == Err(InvalidUrlMessage(url))
    ensures GitLabFetcher(url, outputDir, spec, cfg).Err? ==> MatchGitLab(url.path).None?
  {
  }

  /** A GitLab archive route keeps the URL and names the workflow after the archive's stem. */
  lemma GitLabArchiveFetcher(url: ParsedUrl, outputDir: string, spec: Option<string>, cfg: Config)
    requires MatchGitLab(url.path).Some? && TruthyStr(MatchGitLab(url.path).value.zipPath)
    ensures var r := GitLabFetcher(url, outputDir, spec, cfg);
      r.Ok? && r.value.ZipFetcher? && r.value.url == url && r.value.workflowName == Clean(url.stem, cfg.replaced)
  {
    assert GitLabFetcher(url, outputDir, spec, cfg) == Ok(MakeZip(url, outputDir, spec, Some(url.stem), cfg.replaced));
  }

  /** Any other GitLab route clones the repository from the same host at the matched ref. */
  lemma GitLabCloneFetcher(url: ParsedUrl, outputDir: string, spec: Option<string>, cfg: Config)
    requires MatchGitLab(url.path).Some? && !TruthyStr(MatchGitLab(url.path).value.zipPath)
    ensures var m, r := MatchGitLab(url.path).value, GitLabFetcher(url, outputDir, spec, cfg);
      && r.Ok? && r.value.GitFetcher?
      && r.value.url.originalUrl == RepositoryUrl(HttpsPrefix + HostForMessage(url.hostname) + Slash, m)
      && r.value.gitRef == m.gitRef
  {
  }

  const SchemeNotAllowed := "URL scheme not allowed"
  const BadSpecExtension := "The provided specification doesn't have a valid file extension"
  const SpecWithSpecUrl := "Cannot use the 'specification' argument when the URL points directly to a specification file"
  const CannotHandle := "Cannot handle given URL"
  const ZipExtension := ".zip"

  /** `get_fetcher(launcher_url, output_dir, spec)`; `Err` carries the `ValueError` message. */
  function GetFetcher(launcherUrl: string, outputDir: string, spec: Option<string>, cfg: Config): (r: Result<Fetcher, string>)
  {
    Dispatch(Parse(launcherUrl), outputDir, spec, cfg)
  }

  /** The body of `get_fetcher` once the URL is parsed. */
  function Dispatch(url: ParsedUrl, outputDir: string, spec: Option<string>, cfg: Config): (r: Result<Fetcher, string>)
  {
    if url.scheme !in cfg.allowedSchemes then Err(SchemeNotAllowed)
    else if TruthyStr(spec) && SplitExt(spec.value).1 !in cfg.specExtensions then Err(BadSpecExtension)
    else if url.netloc == GitHubHost then GitHubFetcher(url, outputDir, spec, cfg)
    else if url.netloc in cfg.gitlabHosts then GitLabFetcher(url, outputDir, spec, cfg)
    else if url.extension == GitSuffix then Ok(GitFetcher(url, outputDir, None, spec))
    else if url.extension == ZipExtension then Ok(MakeZip(url, outputDir, spec, None, cfg.replaced))
    else if url.extension in cfg.specExtensions then
      if TruthyStr(spec) then Err(SpecWithSpecUrl) else Ok(MakeYaml(url, outputDir))
    else Err(CannotHandle)
  }

  /** A scheme outside the allowed ones is rejected before anything else is looked at. */
  lemma SchemeCheckedFirst(launcherUrl: string, outputDir: string, spec: Option<string>, cfg: Config)
    requires Parse(launcherUrl).scheme !in cfg.allowedSchemes
    ensures GetFetcher(launcherUrl, outputDir, spec, cfg) == Err(SchemeNotAllowed)
  {
  }

  /** A specification argument with an unknown extension is rejected whatever the URL. */
  lemma SpecExtensionChecked(launcherUrl: string, outputDir: string, spec: string, cfg: Config)
    requires Parse(launcherUrl).scheme in cfg.allowedSchemes
    requires spec != "" && SplitExt(spec).1 !in cfg.specExtensions
    ensures GetFetcher(launcherUrl, outputDir, Some(spec), cfg) == Err(BadSpecExtension)
  {
  }

  /** The dispatch order starts with `github.com`, compared with the whole network location. */
  lemma DispatchGitHubFirst(launcherUrl: string, outputDir: string, spec: Option<string>, cfg: Config)
    requires Parse(launcherUrl).scheme in cfg.allowedSchemes
    requires !TruthyStr(spec) || SplitExt(spec.value).1 in cfg.specExtensions
    requires Parse(launcherUrl).netloc == GitHubHost
    ensures GetFetcher(launcherUrl, outputDir, spec, cfg) == GitHubFetcher(Parse(launcherUrl), outputDir, spec, cfg)
  {
  }

  /** An allowed GitLab host comes second. */
  lemma DispatchGitLabSecond(launcherUrl: string, outputDir: string, spec: Option<string>, cfg: Config)
    requires Parse(launcherUrl).scheme in cfg.allowedSchemes
    requires !TruthyStr(spec) || SplitExt(spec.value).1 in cfg.specExtensions
    requires Parse(launcherUrl).netloc != GitHubHost && Parse(launcherUrl).netloc in cfg.gitlabHosts
    ensures GetFetcher(launcherUrl, outputDir, spec, cfg) == GitLabFetcher(Parse(launcherUrl), outputDir, spec, cfg)
  {
  }

  /** For other hosts the URL's extension decides: `.git`, then `.zip`, then a specification extension. */
  lemma DispatchByExtension(launcherUrl: string, outputDir: string, spec: Option<string>, cfg: Config)
    requires Parse(launcherUrl).scheme in cfg.allowedSchemes
    requires !TruthyStr(spec) || SplitExt(spec.value).1 in cfg.specExtensions
    requires Parse(launcherUrl).netloc != GitHubHost && Parse(launcherUrl).netloc !in cfg.gitlabHosts
    ensures var ext, r := Parse(launcherUrl).extension, GetFetcher(launcherUrl, outputDir, spec, cfg);
      && (r.Ok? && r.value.GitFetcher? <==> ext == GitSuffix)
      && (r.Ok? && r.value.ZipFetcher? <==> ext == ZipExtension)
      && (r.Ok? && r.value.YamlFetcher? <==> ext != GitSuffix && ext != ZipExtension && ext in cfg.specExtensions && !TruthyStr(spec))
      && (r == Err(SpecWithSpecUrl) <==> ext != GitSuffix && ext != ZipExtension && ext in cfg.specExtensions && TruthyStr(spec))
      && (r == Err(CannotHandle) <==> ext != GitSuffix && ext != ZipExtension && ext !in cfg.specExtensions)
  {
  }

  /** A fetcher whose fixed Zip name, if any, is a cleaned name. */
  predicate NameIsFixed(f: Fetcher, cfg: Config)
  {
    f.ZipFetcher? ==> IsCleanName(f.workflowName, cfg.replaced)
  }

  lemma MakeZipNameIsClean(url: ParsedUrl, outputDir: string, spec: Option<string>, name: Option<string>, cfg: Config)
    ensures NameIsFixed(MakeZip(url, outputDir, spec, name, cfg.replaced), cfg)
  {
    CleanIsClean(if TruthyStr(name) then name.value else url.stem, cfg.replaced);
  }

  /** Every name generated for a fetcher that `get_fetcher` returns is a cleaned name. */
  lemma GetFetcherNameIsClean(launcherUrl: string, outputDir: string, spec: Option<string>, cfg: Config)
    requires GetFetcher(launcherUrl, outputDir, spec, cfg).Ok?
    ensures IsCleanName(GenerateWorkflowName(GetFetcher(launcherUrl, outputDir, spec, cfg).value, cfg), cfg.replaced)
  {
    DispatchNameIsClean(Parse(launcherUrl), outputDir, spec, cfg);
  }

  lemma GitHubNameIsFixed(url: ParsedUrl, outputDir: string, spec: Option<string>, cfg: Config)
    requires GitHubFetcher(url, outputDir, spec, cfg).Ok?
    ensures NameIsFixed(GitHubFetcher(url, outputDir, spec, cfg).value, cfg)
  {
    match MatchGitHub(url.path) {
      case Some(m) =>
        if TruthyStr(m.zipPath) {
          MakeZipNameIsClean(url, outputDir, spec, Some(m.repository + Dash + url.stem), cfg);
        }
    }
  }

  lemma GitLabNameIsFixed(url: ParsedUrl, outputDir: string, spec: Option<string>, cfg: Config)
    requires GitLabFetcher(url, outputDir, spec, cfg).Ok?
    ensures NameIsFixed(GitLabFetcher(url, outputDir, spec, cfg).value, cfg)
  {
    match MatchGitLab(url.path) {
      case Some(m) =>
        if TruthyStr(m.zipPath) {
          MakeZipNameIsClean(url, outputDir, spec, Some(url.stem), cfg);
        }
    }
  }

  lemma DispatchNameIsFixed(url: ParsedUrl, outputDir: string, spec: Option<string>, cfg: Config)
    requires Dispatch(url, outputDir, spec, cfg).Ok?
    ensures NameIsFixed(Dispatch(url, outputDir, spec, cfg).value, cfg)
  {
    if url.netloc == GitHubHost {
      assert Dispatch(url, outputDir, spec, cfg) == GitHubFetcher(url, outputDir, spec, cfg);
      GitHubNameIsFixed(url, outputDir, spec, cfg);
    } else if url.netloc in cfg.gitlabHosts {
      assert Dispatch(url, outputDir, spec, cfg) == GitLabFetcher(url, outputDir, spec, cfg);
      GitLabNameIsFixed(url, outputDir, spec, cfg);
    } else if url.extension != GitSuffix && url.extension == ZipExtension {
      assert Dispatch(url, outputDir, spec, cfg) == Ok(MakeZip(url, outputDir, spec, None, cfg.replaced));
      MakeZipNameIsClean(url, outputDir, spec, None, cfg);
    }
  }

  lemma DispatchNameIsClean(url: ParsedUrl, outputDir: string, spec: Option<string>, cfg: Config)
    requires Dispatch(url, outputDir, spec, cfg).Ok?
    ensures IsCleanName(GenerateWorkflowName(Dispatch(url, outputDir, spec, cfg).value, cfg), cfg.replaced)
  {
    DispatchNameIsFixed(url, outputDir, spec, cfg);
    GeneratedNameIsClean(Dispatch(url, outputDir, spec, cfg).value, cfg);
  }

  /** A Git fetcher's generated name is the cleaned repository name, with the ref appended when given. */
  lemma GitNameWithRef(url: ParsedUrl, outputDir: string, gitRef: string, spec: Option<string>, cfg: Config)
    requires gitRef != ""
    ensures GenerateWorkflowName(GitFetcher(url, outputDir, Some(gitRef), spec), cfg) == Clean(url.stem + Dash + gitRef, cfg.replaced)
    ensures GenerateWorkflowName(GitFetcher(url, outputDir, None, spec), cfg) == Clean(url.stem, cfg.replaced)
  {
  }

  /** A Yaml fetcher for a standard file name uses the cleaned directory, unless that is empty. */
  lemma YamlName(url: ParsedUrl, outputDir: string, cfg: Config)
    ensures var n := GenerateWorkflowName(MakeYaml(url, outputDir), cfg);
      && (url.basename in cfg.specFilenames && Clean(url.dirname, cfg.replaced) != "" ==> n == Clean(url.dirname, cfg.replaced))
      && (url.basename !in cfg.specFilenames || Clean(url.dirname, cfg.replaced) == "" ==>
            n == Clean(url.dirname + Dash + url.stem, cfg.replaced))
  {
  }

  // ---------------------------------------------------------------------
  // Selection of the specification file

  /** The file system as the fetcher sees it: `abspath`, `realpath` (canonical parts) and `isfile`. */
  datatype FileSystem = FileSystem(abspath: string -> string, realpath: string -> Path, isFile: string -> bool)

  function CommonPrefix(a: Path, b: Path): (c: Path)
    ensures c <= a && c <= b
    ensures |c| < |a| && |c| < |b| ==> a[|c|] != b[|c|]
  {
    if a == [] || b == [] || a[0] != b[0] then []
    else [a[0]] + CommonPrefix(a[1..], b[1..])
  }

  /** `_is_path_inside_output_dir`: the common path of the two real paths is the output directory. */
  predicate IsPathInsideOutputDir(outputDir: string, path: string, fs: FileSystem)
  {
    CommonPrefix(fs.realpath(outputDir), fs.realpath(path)) == fs.realpath(outputDir)
  }

  /** The containment check holds exactly when the real output directory is an ancestor of the real path. */
  lemma InsideIffAncestor(outputDir: string, path: string, fs: FileSystem)
    ensures IsPathInsideOutputDir(outputDir, path, fs) <==> IsRelativeTo(fs.realpath(path), fs.realpath(outputDir))
  {
    var a, b := fs.realpath(outputDir), fs.realpath(path);
    if a <= b { CommonPrefixOfPrefix(a, b); }
  }

  lemma {:induction false} CommonPrefixOfPrefix(a: Path, b: Path)
    requires a <= b
    ensures CommonPrefix(a, b) == a
  {
    if a != [] {
      assert a[1..] <= b[1..];
      CommonPrefixOfPrefix(a[1..], b[1..]);
    }
  }

  /** The files of `filenames` that exist in `dir`, in order. */
  function Discovered(dir: string, filenames: seq<string>, fs: FileSystem): (r: seq<string>)
    ensures forall x :: x in r <==> exists f :: f in filenames && x == PosixJoin(dir, f) && fs.isFile(x)
  {
    if filenames == [] then []
    else
      var path := PosixJoin(dir, filenames[|filenames| - 1]);
      Discovered(dir, filenames[..|filenames| - 1], fs) + (if fs.isFile(path) then [path] else [])
  }

  /** `_discover_workflow_specs(dir)`. */
  method DiscoverWorkflowSpecs(dir: string, filenames: seq<string>, fs: FileSystem) returns (specs: seq<string>)
    ensures specs == Discovered(dir, filenames, fs)
  {
    specs := [];
    var i := 0;
    while i < |filenames|
      invariant 0 <= i <= |filenames|
      invariant specs == Discovered(dir, filenames[..i], fs)
    {
      var path := PosixJoin(dir, filenames[i]);
      if fs.isFile(path) {
        specs := specs + [path];
      }
      assert filenames[..i + 1][..i] == filenames[..i];
      i := i + 1;
    }
    assert filenames[..i] == filenames;
  }

  function SpecOf(f: Fetcher): Option<string>
  {
    match f
    case GitFetcher(_, _, _, spec) => spec
    case ZipFetcher(_, _, spec, _) => spec
    case YamlFetcher(_, _, spec) => spec
  }

  const InvalidSpecPath := "Invalid path to the workflow specification"
  const SpecFileMissing := "Cannot find the provided workflow specification"
  const SpecNotFound := "Workflow specification was not found"
  const MultipleSpecs := "Multiple workflow specifications found"

  /** The distinct absolute paths of the discovered specifications. */
  function UniqueSpecs(f: Fetcher, cfg: Config, fs: FileSystem): set<string>
  {
    set p | p in Discovered(fs.abspath(f.outputDir), cfg.specFilenames, fs) :: fs.abspath(p)
  }

  /** `workflow_spec_path()`; `Err` carries the `REANAFetcherError` message. */
  method WorkflowSpecPath(f: Fetcher, cfg: Config, fs: FileSystem) returns (r: Result<string, string>)
    ensures TruthyStr(SpecOf(f)) ==> r == ExplicitSpecPath(fs.abspath(f.outputDir), SpecOf(f).value, fs)
    ensures !TruthyStr(SpecOf(f)) ==>
      && (UniqueSpecs(f, cfg, fs) == {} <==> r == Err(SpecNotFound))
      && (|UniqueSpecs(f, cfg, fs)| > 1 <==> r == Err(MultipleSpecs))
      && (r.Ok? ==> UniqueSpecs(f, cfg, fs) == {r.value})
      && (|UniqueSpecs(f, cfg, fs)| == 1 ==> r.Ok?)
  {
    var spec := SpecOf(f);
    if TruthyStr(spec) {
      return ExplicitSpecPath(fs.abspath(f.outputDir), spec.value, fs);
    }
    var specs := DiscoverWorkflowSpecs(fs.abspath(f.outputDir), cfg.specFilenames, fs);
    r := OnlySpec(set p | p in specs :: fs.abspath(p));
  }

  /** The explicit-specification branch of `workflow_spec_path()`. */
  function ExplicitSpecPath(outputDir: string, spec: string, fs: FileSystem): (r: Result<string, string>)
    ensures var specPath := fs.abspath(PosixJoin(outputDir, spec));
      && (!IsPathInsideOutputDir(outputDir, specPath, fs) ==> r == Err(InvalidSpecPath))
      && (IsPathInsideOutputDir(outputDir, specPath, fs) && !fs.isFile(specPath) ==> r == Err(SpecFileMissing))
      && (IsPathInsideOutputDir(outputDir, specPath, fs) && fs.isFile(specPath) ==> r == Ok(specPath))
  {
    var specPath := fs.abspath(PosixJoin(outputDir, spec));
    if !IsPathInsideOutputDir(outputDir, specPath, fs) then Err(InvalidSpecPath)
    else if !fs.isFile(specPath) then Err(SpecFileMissing)
    else Ok(specPath)
  }

  /** The discovery branch: exactly one distinct specification is required. */
  method OnlySpec(unique: set<string>) returns (r: Result<string, string>)
    ensures unique == {} <==> r == Err(SpecNotFound)
    ensures |unique| > 1 <==> r == Err(MultipleSpecs)
    ensures r.Ok? ==> unique == {r.value}
    ensures |unique| == 1 ==> r.Ok?
  {
    if unique == {} {
      return Err(SpecNotFound);
    }
    if |unique| > 1 {
      return Err(MultipleSpecs);
    }
    var only :| only in unique;
    assert |unique - {only}| == 0;
    assert unique == {only};
    return Ok(only);
  }

  // ---------------------------------------------------------------------
  // Size accounting of `_download_file`

  /** The total of a sequence of chunk sizes. */
  function Sum(s: seq<nat>): nat
  {
    if s == [] then 0 else Sum(s[..|s| - 1]) + s[|s| - 1]
  }

  lemma {:induction false} SumPrefixMonotone(s: seq<nat>, j: nat, k: nat)
    requires j <= k <= |s|
    ensures Sum(s[..j]) <= Sum(s[..k])
    decreases k - j
  {
    if j < k {
      SumPrefixMonotone(s, j, k - 1);
      assert s[..k][..k - 1] == s[..k - 1];
    }
  }

  /**
   * `write_to_file`: the number of bytes read, and how many chunks were
   * written; streaming stops after the first chunk that takes the count
   * past `maximum`.
   */
  method WriteToFile(chunks: seq<nat>, maximum: nat) returns (readBytes: nat, written: nat)
    ensures written <= |chunks| && readBytes == Sum(chunks[..written])
    ensures written == |chunks| || readBytes > maximum
    ensures forall j :: 0 <= j < written ==> Sum(chunks[..j]) <= maximum
  {
    readBytes, written := 0, 0;
    while written < |chunks|
      invariant written <= |chunks| && readBytes == Sum(chunks[..written])
      invariant forall j :: 0 <= j < written ==> Sum(chunks[..j]) <= maximum
      invariant written > 0 ==> readBytes <= maximum
    {
      assert chunks[..written + 1][..written] == chunks[..written];
      readBytes := readBytes + chunks[written];
      written := written + 1;
      if readBytes > maximum {
        break;
      }
    }
  }

  /** What the download left on disk. */
  datatype OutputFile = NotWritten | Written(size: nat) | Removed

  datatype HttpResponse = HttpResponse(status: int, reason: string, contentLength: Option<int>, chunks: seq<nat>)

  /** The outcome of `requests.get`: a response, a time-out, or another request failure. */
  datatype Transport = Responded(response: HttpResponse) | TimedOut | RequestFailed

  const MaximumSizeExceeded := "Maximum file size exceeded"
  const TimedOutMessage := "Timed-out while fetching the workflow specification"
  const RequestFailedMessage := "Something went wrong while fetching the workflow specification"
  const NotFoundMessage := "Cannot find the given workflow specification"
  const CannotFetchPrefix := "Cannot fetch the workflow specification: "
  const OpenParen := " ("
  const CloseParen := ")"

  function HttpErrorMessage(response: HttpResponse): string
  {
    if response.status == 404 then NotFoundMessage
    else CannotFetchPrefix + response.reason + OpenParen + IntToString(response.status) + CloseParen
  }

  /** `raise_for_status()` raises for 4xx and 5xx statuses. */
  predicate IsHttpError(status: int) { 400 <= status < 600 }

  /** `_download_file(url, output_path)` with `maximum` as `FETCHER_MAXIMUM_FILE_SIZE`. */
  method DownloadFile(transport: Transport, maximum: nat) returns (r: Result<(), string>, file: OutputFile)
    ensures transport.TimedOut? ==> r == Err(TimedOutMessage) && file == NotWritten
    ensures transport.RequestFailed? ==> r == Err(RequestFailedMessage) && file == NotWritten
    ensures transport.Responded? && IsHttpError(transport.response.status) ==>
      r == Err(HttpErrorMessage(transport.response)) && file == NotWritten
    ensures transport.Responded? && !IsHttpError(transport.response.status) && transport.response.contentLength.GetOr(0) > maximum ==>
      r == Err(MaximumSizeExceeded) && file == NotWritten
    ensures r.Ok? <==>
      transport.Responded? && !IsHttpError(transport.response.status)
      && transport.response.contentLength.GetOr(0) <= maximum && Sum(transport.response.chunks) <= maximum
    ensures r.Ok? ==> file == Written(Sum(transport.response.chunks))
    ensures file.Written? ==> r.Ok? && file.size <= maximum
  {
    match transport {
      case TimedOut =>
        return Err(TimedOutMessage), NotWritten;
      case RequestFailed =>
        return Err(RequestFailedMessage), NotWritten;
      case Responded(response) =>
        if IsHttpError(response.status) {
          return Err(HttpErrorMessage(response)), NotWritten;
        }
        if response.contentLength.GetOr(0) > maximum {
          return Err(MaximumSizeExceeded), NotWritten;
        }
        var readBytes, written := WriteToFile(response.chunks, maximum);
        if written < |response.chunks| {
          SumPrefixMonotone(response.chunks, written, |response.chunks|);
        }
        assert response.chunks[..|response.chunks|] == response.chunks;
        if readBytes > maximum {
          return Err(MaximumSizeExceeded), Removed;
        }
        return Ok(()), Written(readBytes);
    }
  }
}
