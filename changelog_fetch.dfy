/** Changelog acquisition: the direct URL, the raw files of a GitHub repository and its
    release notes, tried in an order that depends on whether a GitHub token is set, with
    every failure turned into a warning. The network and the HTML converter are
    parameters: a request either fails or gives a status and a body. */
module ChangelogFetch {
  import opened Wrappers
  import opened Text
  import Changelog

  /** The response to a plain `GET`, after redirects. */
  datatype Response = Response(status: int, text: string)

  /** One release object of the GitHub API. */
  datatype Release = Release(tagName: string, body: Option<string>, draft: bool, prerelease: bool)

  /** One page of the releases API: its status, its releases and its `Link` header. */
  datatype ReleasePage = ReleasePage(status: int, releases: seq<Release>, link: Option<string>)

  /** The services a fetch uses: plain `GET`s, the releases API (URL and headers), the
      HTML-to-text converter, the test "the chunker finds at least one version section",
      and the most pages of releases followed. */
  datatype Services = Services(
    get: string -> Option<Response>,
    api: (string, map<string, string>) -> Option<ReleasePage>,
    html2text: string -> string,
    chunked: string -> bool,
    maxPages: nat)

  /** `raise_for_status` lets exactly the 2xx statuses through. */
  predicate IsSuccess(status: int) {
    200 <= status < 300
  }

  /** The chunk test of the pipeline: `chunk_changelog_by_version` finds a section. */
  predicate HasChunks(text: string) {
    Changelog.Chunks(text) != []
  }

  /** The services use the chunker of this model as their chunk test. */
  ghost predicate UsesChunker(services: Services) {
    forall t :: services.chunked(t) == HasChunks(t)
  }

  /** Python truthiness of an optional string: present and non-empty. */
  predicate Truthy(s: Option<string>) {
    s.Some? && s.value != ""
  }

  // ---------------------------------------------------------------------------
  // the direct URL
  // ---------------------------------------------------------------------------

  /** The body opens with `<` once leading whitespace is dropped; `<!DOCTYPE` and
      `<!doctype` open with `<` too. */
  predicate LooksLikeHtml(text: string) {
    var t := LStrip(text);
    |t| > 0 && t[0] == '<'
  }

  /** `_fetch_from_url`: a 2xx body as it is, unless it looks like HTML: then its text
      rendering, which must have version sections. */
  function FromUrl(url: string, services: Services): (r: Result<string, string>)
    ensures r.Success? ==> services.get(url).Some? && IsSuccess(services.get(url).value.status)
    ensures r.Success? && LooksLikeHtml(services.get(url).value.text) ==> services.chunked(r.value)
    ensures r.Success? && !LooksLikeHtml(services.get(url).value.text) ==> r.value == services.get(url).value.text
  {
    match services.get(url)
    case None => Failure("request failed: " + url)
    case Some(resp) =>
      if !IsSuccess(resp.status) then Failure("HTTP error for " + url)
      else if LooksLikeHtml(resp.text) then
        var stripped := services.html2text(resp.text);
        if !services.chunked(stripped) then Failure("HTML response with no parseable version headers: " + url)
        else Success(stripped)
      else Success(resp.text)
  }

  // ---------------------------------------------------------------------------
  // the repository pattern `github\.com[/:]([^/]+)/([^/.#]+)`
  // ---------------------------------------------------------------------------

  datatype Repo = Repo(owner: string, name: string)

  predicate NotSlash(c: char) {
    c != '/'
  }

  predicate IsRepoChar(c: char) {
    c != '/' && c != '.' && c != '#'
  }

  /** The pattern anchored at `p`: `github.com`, `/` or `:`, the longest run without `/`
      (at least one character, then `/`), and the longest run without `/`, `.` or `#`
      (at least one character). Greedy runs cannot give back characters here, so this
      is the only way the pattern can match at `p`. */
  function RepoAt(s: string, p: nat): (r: Option<Repo>)
  {
    if p + 11 <= |s| && s[p..p + 10] == "github.com" && (s[p + 10] == '/' || s[p + 10] == ':') then
      var a := RunEnd(s, NotSlash, p + 11);
      if a > p + 11 && a < |s| then
        var b := RunEnd(s, IsRepoChar, a + 1);
        if b > a + 1 then Some(Repo(s[p + 11..a], s[a + 1..b])) else None
      else None
    else None
  }

  /** The first position at or after `p` where the pattern matches, or `|s| + 1`. */
  function RepoPos(s: string, p: nat): (q: nat)
    requires p <= |s| + 1
    ensures p <= q <= |s| + 1
    ensures q <= |s| ==> RepoAt(s, q).Some?
    ensures forall j :: p <= j < q ==> RepoAt(s, j).None?
    decreases |s| + 1 - p
  {
    if p > |s| || RepoAt(s, p).Some? then p else RepoPos(s, p + 1)
  }

  /** `re.search(...)`: the leftmost match. */
  function ParseGitHubRepo(url: string): (r: Option<Repo>)
    ensures r.Some? ==> r.value.owner != [] && r.value.name != []
  {
    var q := RepoPos(url, 0);
    if q <= |url| then RepoAt(url, q) else None
  }

  /** The owner is a non-empty run without `/`; the repository name is a non-empty run
      without `/`, `.` or `#`; and no earlier position matches. */
  lemma ParsedRepoShape(url: string)
    requires ParseGitHubRepo(url).Some?
    ensures var r := ParseGitHubRepo(url).value;
      r.owner != [] && AllChars(r.owner, NotSlash) && r.name != [] && AllChars(r.name, IsRepoChar)
    ensures exists q :: 0 <= q <= |url| && ParseGitHubRepo(url) == RepoAt(url, q) &&
                        (forall j :: 0 <= j < q ==> RepoAt(url, j).None?)
  {
    var q := RepoPos(url, 0);
    var a := RunEnd(url, NotSlash, q + 11);
    var b := RunEnd(url, IsRepoChar, a + 1);
    RunChars(url, NotSlash, q + 11, a);
    RunChars(url, IsRepoChar, a + 1, b);
  }

  /** A URL without the pattern cannot be parsed. */
  lemma UnparsedHasNoMatch(url: string)
    requires ParseGitHubRepo(url).None?
    ensures forall j :: 0 <= j <= |url| ==> RepoAt(url, j).None?
  {
  }

  // ---------------------------------------------------------------------------
  // raw-file candidates
  // ---------------------------------------------------------------------------

  const ChangelogFilenames: seq<string> := [
    "CHANGELOG.md", "CHANGELOG.rst", "CHANGES.md", "CHANGES.rst", "HISTORY.md", "HISTORY.rst",
    "NEWS.md", "NEWS.rst", "changelog.md", "changelog.rst", "changes.md", "changes.rst"]

  /** The root files are the changelog names themselves. */
  const RootFilenames: seq<string> := ChangelogFilenames

  const SubdirectoryRoots: seq<string> := ["docs/", "doc/", "doc/en/", "docs/en/"]

  const Branches: seq<string> := ["main", "master"]

  /** Every subdirectory root with every changelog name, root-major. */
  function DocFilenames(): (names: seq<string>)
  {
    FlatMap((root: string) => MapSeq((name: string) => root + name, ChangelogFilenames), SubdirectoryRoots)
  }

  const RawHost: string := "https://raw.githubusercontent.com/"

  function RawUrl(owner: string, repo: string, branch: string, filename: string): (url: string)
  {
    RawHost + owner + "/" + repo + "/" + branch + "/" + filename
  }

  /** The URLs of one filename group: every branch with every filename, branch-major. */
  function CandidateUrls(r: Repo, group: seq<string>): (urls: seq<string>)
  {
    FlatMap((branch: string) => MapSeq((f: string) => RawUrl(r.owner, r.name, branch, f), group), Branches)
  }

  /** Candidate `k` is `main` with filename `k` for the first half and `master` with
      filename `k - |group|` for the second: `main` is tried first. */
  lemma CandidateUrlAt(r: Repo, group: seq<string>, k: nat)
    requires k < 2 * |group|
    ensures |CandidateUrls(r, group)| == 2 * |group|
    ensures CandidateUrls(r, group)[k] ==
      if k < |group| then RawUrl(r.owner, r.name, "main", group[k])
      else RawUrl(r.owner, r.name, "master", group[k - |group|])
  {
    var f := (branch: string) => MapSeq((g: string) => RawUrl(r.owner, r.name, branch, g), group);
    var i, j := if k < |group| then 0 else 1, if k < |group| then k else k - |group|;
    assert k == i * |group| + j;
    FlatMapUniform(f, Branches, |group|, i, j);
    MapSeqAt((g: string) => RawUrl(r.owner, r.name, Branches[i], g), group, j);
  }

  /** There are 48 subdirectory names; name `12i + j` is root `i` followed by changelog
      name `j`. */
  lemma DocFilenameAt(i: nat, j: nat)
    requires i < 4 && j < 12
    ensures |DocFilenames()| == 48
    ensures DocFilenames()[12 * i + j] == SubdirectoryRoots[i] + ChangelogFilenames[j]
  {
    var f := (root: string) => MapSeq((name: string) => root + name, ChangelogFilenames);
    FlatMapUniform(f, SubdirectoryRoots, 12, i, j);
    MapSeqAt((name: string) => SubdirectoryRoots[i] + name, ChangelogFilenames, j);
  }

  /** A candidate URL holds a `#` only where the owner does: neither the repository name,
      the branches nor the file names have one. */
  lemma CandidateHashOnlyFromOwner(r: Repo, group: seq<string>, k: nat)
    requires AllChars(r.name, IsRepoChar)
    requires forall g :: 0 <= g < |group| ==> AllChars(group[g], IsRepoPathChar)
    requires AllChars(r.owner, IsRepoPathChar)
    requires k < 2 * |group|
    ensures AllChars(CandidateUrls(r, group)[k], IsRepoPathChar)
  {
    CandidateUrlAt(r, group, k);
    RawHostHasNoHash();
    if k < |group| {
      NoHashInRawUrl(r.owner, r.name, "main", group[k]);
    } else {
      NoHashInRawUrl(r.owner, r.name, "master", group[k - |group|]);
    }
  }

  lemma RawHostHasNoHash()
    ensures AllChars(RawHost, IsRepoPathChar)
  {
  }

  lemma NoHashInRawUrl(owner: string, repo: string, branch: string, filename: string)
    requires AllChars(RawHost, IsRepoPathChar)
    requires AllChars(owner, IsRepoPathChar) && AllChars(repo, IsRepoPathChar)
    requires AllChars(branch, IsRepoPathChar) && AllChars(filename, IsRepoPathChar)
    ensures AllChars(RawUrl(owner, repo, branch, filename), IsRepoPathChar)
  {
    AllCharsPath(RawHost, owner, repo, branch, filename, IsRepoPathChar);
  }

  predicate IsRepoPathChar(c: char) {
    c != '#'
  }

  lemma ChangelogNamesHaveNoHash()
    ensures forall j :: 0 <= j < |ChangelogFilenames| ==> AllChars(ChangelogFilenames[j], IsRepoPathChar)
  {
  }

  lemma SubdirectoryRootsHaveNoHash()
    ensures forall i :: 0 <= i < |SubdirectoryRoots| ==> AllChars(SubdirectoryRoots[i], IsRepoPathChar)
  {
  }

  /** None of the file names holds a `#`. */
  lemma FilenamesHaveNoHash()
    ensures forall g :: 0 <= g < |RootFilenames| ==> AllChars(RootFilenames[g], IsRepoPathChar)
    ensures forall g :: 0 <= g < |DocFilenames()| ==> AllChars(DocFilenames()[g], IsRepoPathChar)
  {
    ChangelogNamesHaveNoHash();
    SubdirectoryRootsHaveNoHash();
    DocFilenameAt(0, 0);
    forall g | 0 <= g < |DocFilenames()|
      ensures AllChars(DocFilenames()[g], IsRepoPathChar)
    {
      var i, j := g / 12, g % 12;
      DocFilenameAt(i, j);
      AllCharsConcat(SubdirectoryRoots[i], ChangelogFilenames[j], IsRepoPathChar);
    }
  }

  // ---------------------------------------------------------------------------
  // the stub pattern `https?://github\.com/([^/\s]+)/([^/\s]+)/blob/([^/\s]+)/([^\s`>"']+)`
  // ---------------------------------------------------------------------------

  datatype Blob = Blob(owner: string, repo: string, branch: string, path: string)

  predicate IsSegmentChar(c: char) {
    c != '/' && !IsSpace(c)
  }

  predicate IsBlobPathChar(c: char) {
    !IsSpace(c) && c != '`' && c != '>' && c != '"' && c != '\''
  }

  /** The end of a non-empty segment starting at `i` that is followed by `/`, if any. */
  function SegmentEnd(s: string, i: nat): (e: Option<nat>)
    requires i <= |s|
    ensures e.Some? ==> i < e.value < |s| && s[e.value] == '/'
  {
    var e := RunEnd(s, IsSegmentChar, i);
    if e > i && e < |s| && s[e] == '/' then Some(e) else None
  }

  /** The stub pattern anchored at `p`. */
  function BlobAt(s: string, p: nat): (b: Option<Blob>)
  {
    if p + 4 <= |s| && s[p..p + 4] == "http" then
      var i := if p + 4 < |s| && s[p + 4] == 's' then p + 5 else p + 4;
      if i + 15 <= |s| && s[i..i + 14] == "://github.com/" then
        match SegmentEnd(s, i + 14)
        case None => None
        case Some(a) =>
          var b := RunEnd(s, IsSegmentChar, a + 1);
          if b > a + 1 && b + 6 <= |s| && s[b..b + 6] == "/blob/" then
            match SegmentEnd(s, b + 6)
            case None => None
            case Some(c) =>
              var d := RunEnd(s, IsBlobPathChar, c + 1);
              if d > c + 1 then Some(Blob(s[i + 14..a], s[a + 1..b], s[b + 6..c], s[c + 1..d])) else None
          else None
      else None
    else None
  }

  function BlobPos(s: string, p: nat): (q: nat)
    requires p <= |s| + 1
    ensures p <= q <= |s| + 1
    ensures q <= |s| ==> BlobAt(s, q).Some?
    ensures forall j :: p <= j < q ==> BlobAt(s, j).None?
    decreases |s| + 1 - p
  {
    if p > |s| || BlobAt(s, p).Some? then p else BlobPos(s, p + 1)
  }

  /** `_GITHUB_BLOB_RE.search(text)`: the leftmost match. */
  function FindBlob(text: string): (b: Option<Blob>)
  {
    var q := BlobPos(text, 0);
    if q <= |text| then BlobAt(text, q) else None
  }

  function BlobRawUrl(b: Blob): (url: string)
  {
    RawHost + b.owner + "/" + b.repo + "/" + b.branch + "/" + b.path
  }

  // ---------------------------------------------------------------------------
  // raw files
  // ---------------------------------------------------------------------------

  /** A 200 response with version sections. */
  predicate Good(r: Option<Response>, services: Services) {
    r.Some? && r.value.status == 200 && services.chunked(r.value.text)
  }

  /** The first URL, in list order, whose response is good. */
  function FirstGood(urls: seq<string>, services: Services): (t: Option<string>)
    ensures t.Some? ==> exists k :: 0 <= k < |urls| && Good(services.get(urls[k]), services) && t.value == services.get(urls[k]).value.text
    ensures t.None? <==> forall k :: 0 <= k < |urls| ==> !Good(services.get(urls[k]), services)
  {
    if urls == [] then None
    else if Good(services.get(urls[0]), services) then Some(services.get(urls[0]).value.text)
    else
      var rest := FirstGood(urls[1..], services);
      assert forall k :: 1 <= k < |urls| ==> urls[k] == urls[1..][k - 1];
      rest
  }

  /** A stub: a 200 response without version sections whose text names a blob that
      fetches as a good response. */
  function FollowStub(url: string, services: Services): (t: Option<string>)
    ensures t.Some? ==> exists b :: Good(services.get(BlobRawUrl(b)), services) && t.value == services.get(BlobRawUrl(b)).value.text
  {
    var r := services.get(url);
    if r.Some? && r.value.status == 200 && !services.chunked(r.value.text) then
      match FindBlob(r.value.text)
      case None => None
      case Some(b) =>
        var r2 := services.get(BlobRawUrl(b));
        if Good(r2, services) then Some(r2.value.text) else None
    else None
  }

  function FirstStub(urls: seq<string>, services: Services): (t: Option<string>)
    ensures t.Some? ==> exists k :: 0 <= k < |urls| && t == FollowStub(urls[k], services)
    ensures t.None? <==> forall k :: 0 <= k < |urls| ==> FollowStub(urls[k], services).None?
  {
    if urls == [] then None
    else if FollowStub(urls[0], services).Some? then FollowStub(urls[0], services)
    else
      var rest := FirstStub(urls[1..], services);
      assert forall k :: 1 <= k < |urls| ==> urls[k] == urls[1..][k - 1];
      if rest.Some? then StubAfterFirst(urls, services, rest); rest else rest
  }

  /** A stub found after the first URL is found in the whole list. */
  lemma StubAfterFirst(urls: seq<string>, services: Services, t: Option<string>)
    requires urls != []
    requires exists k :: 0 <= k < |urls| - 1 && t == FollowStub(urls[1..][k], services)
    ensures exists k :: 0 <= k < |urls| && t == FollowStub(urls[k], services)
  {
    var k :| 0 <= k < |urls| - 1 && t == FollowStub(urls[1..][k], services);
    assert urls[k + 1] == urls[1..][k];
  }

  /** One filename group: a good candidate if there is one, else a resolved stub. */
  function GroupResult(r: Repo, group: seq<string>, services: Services): (t: Option<string>)
  {
    var urls := CandidateUrls(r, group);
    if FirstGood(urls, services).Some? then FirstGood(urls, services) else FirstStub(urls, services)
  }

  /** The search once the repository is known: the root group, then the subdirectory
      group, then the failure naming the repository. */
  function FromRepo(r: Repo, root: seq<string>, docs: seq<string>, services: Services): (res: Result<string, string>)
  {
    match GroupResult(r, root, services)
    case Some(t) => Success(t)
    case None =>
      match GroupResult(r, docs, services)
      case Some(t) => Success(t)
      case None => Failure("No changelog found for " + r.owner + "/" + r.name)
  }

  /** `_fetch_from_github` */
  function FromGitHub(repositoryUrl: string, services: Services): (res: Result<string, string>)
  {
    match ParseGitHubRepo(repositoryUrl)
    case None => Failure("Cannot parse GitHub URL: " + repositoryUrl)
    case Some(r) => FromRepo(r, RootFilenames, DocFilenames(), services)
  }

  /** Whatever the raw files give passes the chunk test; with the chunker of this model
      as that test, it has version sections. */
  lemma {:induction false} GroupResultHasChunks(r: Repo, group: seq<string>, services: Services)
    requires GroupResult(r, group, services).Some?
    ensures services.chunked(GroupResult(r, group, services).value)
    ensures UsesChunker(services) ==> Changelog.Chunks(GroupResult(r, group, services).value) != []
  {
    var urls := CandidateUrls(r, group);
    if FirstGood(urls, services).None? {
      var k :| 0 <= k < |urls| && FirstStub(urls, services) == FollowStub(urls[k], services);
    }
  }

  lemma FromGitHubHasChunks(repositoryUrl: string, services: Services)
    requires FromGitHub(repositoryUrl, services).Success?
    ensures services.chunked(FromGitHub(repositoryUrl, services).value)
    ensures UsesChunker(services) ==> Changelog.Chunks(FromGitHub(repositoryUrl, services).value) != []
  {
    var r := ParseGitHubRepo(repositoryUrl).value;
    if GroupResult(r, RootFilenames, services).Some? {
      GroupResultHasChunks(r, RootFilenames, services);
    } else {
      GroupResultHasChunks(r, DocFilenames(), services);
    }
  }

  /** The subdirectory files are looked at only when no root file is good and no root
      stub resolves; a good file always wins over a stub of the same group. */
  lemma RootBeforeDocs(repositoryUrl: string, services: Services)
    requires ParseGitHubRepo(repositoryUrl).Some?
    ensures var r := ParseGitHubRepo(repositoryUrl).value;
      var root := CandidateUrls(r, RootFilenames);
      (FirstGood(root, services).Some? ==> FromGitHub(repositoryUrl, services) == Success(FirstGood(root, services).value)) &&
      (FirstGood(root, services).None? && FirstStub(root, services).Some? ==>
         FromGitHub(repositoryUrl, services) == Success(FirstStub(root, services).value)) &&
      (FromGitHub(repositoryUrl, services).Failure? ==>
         (forall k :: 0 <= k < |root| ==> !Good(services.get(root[k]), services)) &&
         (forall k :: 0 <= k < |CandidateUrls(r, DocFilenames())| ==> !Good(services.get(CandidateUrls(r, DocFilenames())[k]), services)))
  {
  }

  /** `_try_urls_concurrently`: the text of a good candidate. */
  method TryUrls(urls: seq<string>, services: Services) returns (t: Option<string>)
    ensures t == FirstGood(urls, services)
  {
    if urls == [] {
      return None;
    }
    var k := 0;
    while k < |urls|
      invariant 0 <= k <= |urls|
      invariant FirstGood(urls, services) == FirstGood(urls[k..], services)
    {
      var r := services.get(urls[k]);
      if r.Some? && r.value.status == 200 && services.chunked(r.value.text) {
        return Some(r.value.text);
      }
      assert urls[k..][1..] == urls[k + 1..];
      k := k + 1;
    }
    return None;
  }

  /** The slow path over one group: stubs are followed in list order. */
  method FollowStubs(urls: seq<string>, services: Services) returns (t: Option<string>)
    ensures t == FirstStub(urls, services)
  {
    for k := 0 to |urls|
      invariant FirstStub(urls, services) == FirstStub(urls[k..], services)
    {
      var r := services.get(urls[k]);
      if r.None? || r.value.status != 200 || services.chunked(r.value.text) {
        assert urls[k..][1..] == urls[k + 1..];
        continue;
      }
      var m := FindBlob(r.value.text);
      if m.Some? {
        var r2 := services.get(BlobRawUrl(m.value));
        if r2.Some? && r2.value.status == 200 && services.chunked(r2.value.text) {
          return Some(r2.value.text);
        }
      }
      assert urls[k..][1..] == urls[k + 1..];
    }
    return None;
  }

  /** One filename group: the fast path, then the stubs. */
  method TryGroup(r: Repo, group: seq<string>, services: Services) returns (t: Option<string>)
    ensures t == GroupResult(r, group, services)
  {
    var urls := CandidateUrls(r, group);
    t := TryUrls(urls, services);
    if t.None? {
      t := FollowStubs(urls, services);
    }
  }

  /** The groups in order, stopping at the first that gives a text. */
  method SearchGroups(r: Repo, root: seq<string>, docs: seq<string>, services: Services)
    returns (res: Result<string, string>)
    ensures res == FromRepo(r, root, docs, services)
  {
    var groups := [root, docs];
    for g := 0 to 2
      invariant g >= 1 ==> GroupResult(r, root, services).None?
      invariant g == 2 ==> GroupResult(r, docs, services).None?
    {
      var result := TryGroup(r, groups[g], services);
      if result.Some? {
        return Success(result.value);
      }
    }
    return Failure("No changelog found for " + r.owner + "/" + r.name);
  }

  method FetchFromGitHub(repositoryUrl: string, services: Services) returns (res: Result<string, string>)
    ensures res == FromGitHub(repositoryUrl, services)
  {
    var parsed := ParseGitHubRepo(repositoryUrl);
    if parsed.None? {
      return Failure("Cannot parse GitHub URL: " + repositoryUrl);
    }
    res := SearchGroups(parsed.value, RootFilenames, DocFilenames(), services);
  }

  // ---------------------------------------------------------------------------
  // the `Link` header: `<([^>]+)>;\s*rel="next"`
  // ---------------------------------------------------------------------------

  predicate NotClose(c: char) {
    c != '>'
  }

  const RelNext: string := "rel=\"next\""

  /** The pattern anchored at `p`: `<`, the longest run without `>` (at least one
      character), `>;`, the longest run of whitespace, then `rel="next"`. */
  function NextAt(s: string, p: nat): (u: Option<string>)
  {
    if p < |s| && s[p] == '<' then
      var a := RunEnd(s, NotClose, p + 1);
      if a > p + 1 && a + 1 < |s| && s[a + 1] == ';' then
        var w := RunEnd(s, IsSpace, a + 2);
        if OccursAt(s, RelNext, w) then Some(s[p + 1..a]) else None
      else None
    else None
  }

  function NextPos(s: string, p: nat): (q: nat)
    requires p <= |s| + 1
    ensures p <= q <= |s| + 1
    ensures q <= |s| ==> NextAt(s, q).Some?
    ensures forall j :: p <= j < q ==> NextAt(s, j).None?
    decreases |s| + 1 - p
  {
    if p > |s| || NextAt(s, p).Some? then p else NextPos(s, p + 1)
  }

  /** `_parse_next_link` */
  function ParseNextLink(header: Option<string>): (u: Option<string>)
  {
    if !Truthy(header) then None
    else
      var s := header.value;
      var q := NextPos(s, 0);
      if q <= |s| then NextAt(s, q) else None
  }

  /** No header, an empty one, or one without `rel="next"` has no next page; a next page
      is a non-empty URL without `>` that the header holds as `<url>`. */
  lemma NextLinkFacts(header: Option<string>)
    ensures ParseNextLink(header).Some? ==> Truthy(header) && Contains(header.value, RelNext)
  {
    if ParseNextLink(header).Some? {
      var s := header.value;
      var p := NextPos(s, 0);
      assert p <= |s| && NextAt(s, p).Some?;
      NextAtHasRel(s, p);
    }
  }

  /** A match of the pattern includes `rel="next"`. */
  lemma NextAtHasRel(s: string, p: nat)
    requires NextAt(s, p).Some?
    ensures Contains(s, RelNext)
  {
    var a := RunEnd(s, NotClose, p + 1);
    var w := RunEnd(s, IsSpace, a + 2);
    assert OccursAt(s, RelNext, w);
    OccursAtContains(s, RelNext, w);
  }

  /** A next page is a non-empty URL without `>` that the header holds as `<url>`. */
  lemma NextLinkShape(header: Option<string>)
    requires ParseNextLink(header).Some?
    ensures var u := ParseNextLink(header).value;
      u != [] && AllChars(u, NotClose) && Contains(header.value, "<" + u + ">")
  {
    var s := header.value;
    var p := NextPos(s, 0);
    var a := RunEnd(s, NotClose, p + 1);
    var u := s[p + 1..a];
    RunChars(s, NotClose, p + 1, a);
    Bracketed(s, p, a);
    assert OccursAt(s, "<" + u + ">", p);
  }

  /** A header naming one next page gives that page back. */
  lemma NextLinkRoundTrip(u: string, spaces: string)
    requires u != [] && AllChars(u, NotClose) && AllChars(spaces, IsSpace)
    ensures ParseNextLink(Some("<" + u + ">;" + spaces + RelNext)) == Some(u)
  {
    NextAtStart(u, spaces);
  }

  /** The pattern matches at the start of `<u>;` + spaces + `rel="next"`. */
  lemma NextAtStart(u: string, spaces: string)
    requires u != [] && AllChars(u, NotClose) && AllChars(spaces, IsSpace)
    ensures NextAt("<" + u + ">;" + spaces + RelNext, 0) == Some(u)
  {
    var s := "<" + u + ">;" + spaces + RelNext;
    var a := 1 + |u|;
    UrlRun(u, spaces);
    RelNextStart();
    SpaceRun(u, spaces, RelNext);
    RelNextAfterSpaces(u, spaces);
    assert s[1..a] == u && s[a + 1] == ';';
  }

  /** The run without `>` after the `<` is the URL. */
  lemma UrlRun(u: string, spaces: string)
    requires AllChars(u, NotClose)
    ensures RunEnd("<" + u + ">;" + spaces + RelNext, NotClose, 1) == 1 + |u|
  {
    var s := "<" + u + ">;" + spaces + RelNext;
    var a := 1 + |u|;
    assert forall j :: 1 <= j < a ==> s[j] == u[j - 1];
    assert s[a] == '>';
    RunEndOf(s, NotClose, 1, a);
  }

  /** The run of whitespace after `>;` is the given spaces. */
  lemma SpaceRun(u: string, spaces: string, z: string)
    requires AllChars(spaces, IsSpace) && z != [] && !IsSpace(z[0])
    ensures RunEnd("<" + u + ">;" + spaces + z, IsSpace, 3 + |u|) == 3 + |u| + |spaces|
  {
    RunAcross("<" + u + ">;", spaces, z, IsSpace, 3 + |u|);
  }

  /** `rel="next"` does not start with whitespace. */
  lemma RelNextStart()
    ensures RelNext != [] && !IsSpace(RelNext[0])
  {
    assert RelNext[0] == 'r';
  }

  /** A run of `p` that starts where `y` starts ends where `y` ends when `z` does not
      continue it. */
  lemma RunAcross(x: string, y: string, z: string, p: char -> bool, i: nat)
    requires i == |x| && AllChars(y, p) && z != [] && !p(z[0])
    ensures RunEnd(x + y + z, p, i) == i + |y|
  {
    var s := x + y + z;
    forall j | i <= j < i + |y|
      ensures p(s[j])
    {
      assert s[j] == y[j - i];
    }
    assert s[i + |y|] == z[0];
    RunEndOf(s, p, i, i + |y|);
  }

  /** `rel="next"` follows the spaces and ends the header. */
  lemma RelNextAfterSpaces(u: string, spaces: string)
    ensures OccursAt("<" + u + ">;" + spaces + RelNext, RelNext, 3 + |u| + |spaces|)
  {
    var pre := "<" + u + ">;" + spaces;
    assert |pre| == 3 + |u| + |spaces|;
    assert (pre + RelNext)[|pre|..] == RelNext;
  }

  // ---------------------------------------------------------------------------
  // releases
  // ---------------------------------------------------------------------------

  function ApiUrl(r: Repo): (url: string)
  {
    "https://api.github.com/repos/" + r.owner + "/" + r.name + "/releases?per_page=100"
  }

  /** The request headers: `Authorization` only when a token is set. */
  function ApiHeaders(token: string): (h: map<string, string>)
    ensures "Accept" in h
    ensures "Authorization" in h <==> token != ""
    ensures token != "" ==> h["Authorization"] == "Bearer " + token
  {
    var base := map["Accept" := "application/vnd.github+json"];
    if token != "" then base["Authorization" := "Bearer " + token] else base
  }

  /** The releases of the pages from `url` on, in fetch order, following each page's
      next link; any failed page fails the whole fetch. */
  function CollectPages(url: Option<string>, headers: map<string, string>,
                        api: (string, map<string, string>) -> Option<ReleasePage>, fuel: nat)
    : (r: Result<seq<Release>, string>)
    decreases fuel
  {
    if url.None? then Success([])
    else if fuel == 0 then Failure("too many release pages")
    else
      match api(url.value, headers)
      case None => Failure("request failed: " + url.value)
      case Some(page) =>
        if !IsSuccess(page.status) then Failure("HTTP error for " + url.value)
        else
          match CollectPages(ParseNextLink(page.link), headers, api, fuel - 1)
          case Failure(e) => Failure(e)
          case Success(rest) => Success(page.releases + rest)
  }

  /** A page without a next link ends the fetch: its releases are all there is. */
  lemma LastPage(url: string, headers: map<string, string>,
                 api: (string, map<string, string>) -> Option<ReleasePage>, fuel: nat)
    requires fuel > 0 && api(url, headers).Some? && IsSuccess(api(url, headers).value.status)
    requires !Truthy(api(url, headers).value.link)
    ensures CollectPages(Some(url), headers, api, fuel) == Success(api(url, headers).value.releases)
  {
    assert ParseNextLink(api(url, headers).value.link).None?;
    assert api(url, headers).value.releases + [] == api(url, headers).value.releases;
  }

  predicate IsUsable(r: Release) {
    !r.draft && !r.prerelease
  }

  /** Releases that are neither drafts nor prereleases, in order. */
  function Usable(releases: seq<Release>): (r: seq<Release>)
    ensures |r| <= |releases|
  {
    if releases == [] then []
    else
      var init := Usable(releases[..|releases| - 1]);
      var last := releases[|releases| - 1];
      if IsUsable(last) then init + [last] else init
  }

  lemma {:induction false} UsableMembership(releases: seq<Release>, x: Release)
    ensures x in Usable(releases) <==> x in releases && IsUsable(x)
    decreases |releases|
  {
    if releases != [] {
      var init := releases[..|releases| - 1];
      UsableMembership(init, x);
      assert releases == init + [releases[|releases| - 1]];
    }
  }

  lemma {:induction false} UsableSubsequence(releases: seq<Release>)
    ensures IsSubsequence(Usable(releases), releases)
    decreases |releases|
  {
    if releases != [] {
      var init := releases[..|releases| - 1];
      var r := Usable(init);
      UsableSubsequence(init);
      if IsUsable(releases[|releases| - 1]) {
        assert (r + [releases[|releases| - 1]])[..|r|] == r;
      }
    }
  }

  /** `r.get('body') or ''` */
  function BodyText(r: Release): (b: string)
  {
    if r.body.Some? then r.body.value else ""
  }

  /** `## {tag}` and the body on the lines after it. */
  function Section(r: Release): (s: string)
    ensures StartsWith(s, "## " + r.tagName)
  {
    assert ("## " + r.tagName + "\n" + BodyText(r))[..|"## " + r.tagName|] == "## " + r.tagName;
    "## " + r.tagName + "\n" + BodyText(r)
  }

  function FromReleases(repositoryUrl: string, token: string, services: Services): (res: Result<string, string>)
  {
    match ParseGitHubRepo(repositoryUrl)
    case None => Failure("Cannot parse GitHub URL: " + repositoryUrl)
    case Some(r) =>
      match CollectPages(Some(ApiUrl(r)), ApiHeaders(token), services.api, services.maxPages)
      case Failure(e) => Failure(e)
      case Success(all) =>
        var usable := Usable(all);
        if usable == [] then Failure("No releases found for " + r.owner + "/" + r.name)
        else Success(Join(MapSeq(Section, usable), "\n\n"))
  }

  /** The release text has a section for every usable release, and there is at least one. */
  lemma ReleaseSections(repositoryUrl: string, token: string, services: Services, x: Release)
    requires FromReleases(repositoryUrl, token, services).Success?
    ensures var r := ParseGitHubRepo(repositoryUrl).value;
      var all := CollectPages(Some(ApiUrl(r)), ApiHeaders(token), services.api, services.maxPages).value;
      Usable(all) != [] &&
      (x in all && IsUsable(x) ==> Contains(FromReleases(repositoryUrl, token, services).value, "## " + x.tagName))
  {
    var r := ParseGitHubRepo(repositoryUrl).value;
    var all := CollectPages(Some(ApiUrl(r)), ApiHeaders(token), services.api, services.maxPages).value;
    var usable := Usable(all);
    if x in all && IsUsable(x) {
      UsableMembership(all, x);
      var k :| 0 <= k < |usable| && usable[k] == x;
      var parts := MapSeq(Section, usable);
      MapSeqAt(Section, usable, k);
      JoinContainsPart(parts, "\n\n", k);
      OccursAtContains(parts[k], "## " + x.tagName, 0);
      ContainsTrans(Join(parts, "\n\n"), parts[k], "## " + x.tagName);
    }
  }

  /** Drafts and prereleases alone give no release text. */
  lemma OnlyUnusableFails(repositoryUrl: string, token: string, services: Services)
    requires ParseGitHubRepo(repositoryUrl).Some?
    requires var r := ParseGitHubRepo(repositoryUrl).value;
      var pages := CollectPages(Some(ApiUrl(r)), ApiHeaders(token), services.api, services.maxPages);
      pages.Success? && forall k :: 0 <= k < |pages.value| ==> !IsUsable(pages.value[k])
    ensures FromReleases(repositoryUrl, token, services).Failure?
  {
    var r := ParseGitHubRepo(repositoryUrl).value;
    var all := CollectPages(Some(ApiUrl(r)), ApiHeaders(token), services.api, services.maxPages).value;
    if Usable(all) != [] {
      UsableMembership(all, Usable(all)[0]);
    }
  }

  /** The paging loop of `_fetch_from_github_releases`: pages are fetched while there is
      a next link. */
  method FetchPages(start: string, headers: map<string, string>,
                    api: (string, map<string, string>) -> Option<ReleasePage>, maxPages: nat)
    returns (res: Result<seq<Release>, string>)
    ensures res == CollectPages(Some(start), headers, api, maxPages)
  {
    var url: Option<string> := Some(start);
    var allReleases: seq<Release> := [];
    var fuel := maxPages;
    ghost var whole := CollectPages(url, headers, api, fuel);
    PrependEmpty(whole);
    assert Prepend(allReleases, CollectPages(url, headers, api, fuel)) == whole;
    while url.Some?
      invariant Prepend(allReleases, CollectPages(url, headers, api, fuel)) == whole
      decreases fuel
    {
      if fuel == 0 {
        assert whole == Failure("too many release pages");
        return Failure("too many release pages");
      }
      var page := api(url.value, headers);
      if page.None? {
        assert whole == Failure("request failed: " + url.value);
        return Failure("request failed: " + url.value);
      }
      if !IsSuccess(page.value.status) {
        assert whole == Failure("HTTP error for " + url.value);
        return Failure("HTTP error for " + url.value);
      }
      var next := ParseNextLink(page.value.link);
      assert Prepend(allReleases + page.value.releases, CollectPages(next, headers, api, fuel - 1)) == whole by {
        Advance(allReleases, url.value, headers, api, fuel, page.value, next, whole);
      }
      allReleases := allReleases + page.value.releases;
      url := next;
      fuel := fuel - 1;
    }
    assert allReleases + [] == allReleases;
    return Success(allReleases);
  }

  /** `_fetch_from_github_releases` */
  method FetchFromGitHubReleases(repositoryUrl: string, token: string, services: Services)
    returns (res: Result<string, string>)
    ensures res == FromReleases(repositoryUrl, token, services)
  {
    var parsed := ParseGitHubRepo(repositoryUrl);
    if parsed.None? {
      return Failure("Cannot parse GitHub URL: " + repositoryUrl);
    }
    var r := parsed.value;
    var pages := FetchPages(ApiUrl(r), ApiHeaders(token), services.api, services.maxPages);
    if pages.Failure? {
      return Failure(pages.error);
    }
    var usable := Usable(pages.value);
    if usable == [] {
      return Failure("No releases found for " + r.owner + "/" + r.name);
    }
    return Success(Join(MapSeq(Section, usable), "\n\n"));
  }

  /** A page that loaded: its releases come before those of the pages after it. */
  lemma PageStep(url: string, headers: map<string, string>,
                 api: (string, map<string, string>) -> Option<ReleasePage>, fuel: nat,
                 page: ReleasePage, next: Option<string>)
    requires fuel > 0 && api(url, headers) == Some(page) && IsSuccess(page.status)
    requires next == ParseNextLink(page.link)
    ensures CollectPages(Some(url), headers, api, fuel) == Prepend(page.releases, CollectPages(next, headers, api, fuel - 1))
  {
  }

  /** One loaded page moves its releases from what is left to fetch to what was fetched. */
  lemma Advance(acc: seq<Release>, url: string, headers: map<string, string>,
                api: (string, map<string, string>) -> Option<ReleasePage>, fuel: nat,
                page: ReleasePage, next: Option<string>, whole: Result<seq<Release>, string>)
    requires fuel > 0 && api(url, headers) == Some(page) && IsSuccess(page.status)
    requires next == ParseNextLink(page.link)
    requires Prepend(acc, CollectPages(Some(url), headers, api, fuel)) == whole
    ensures Prepend(acc + page.releases, CollectPages(next, headers, api, fuel - 1)) == whole
  {
    PageStep(url, headers, api, fuel, page, next);
    PrependAssoc(acc, page.releases, CollectPages(next, headers, api, fuel - 1));
  }

  /** Releases fetched so far, followed by the outcome of the rest. */
  function Prepend(acc: seq<Release>, r: Result<seq<Release>, string>): (p: Result<seq<Release>, string>)
  {
    match r
    case Failure(e) => Failure(e)
    case Success(rest) => Success(acc + rest)
  }

  lemma PrependEmpty(r: Result<seq<Release>, string>)
    ensures Prepend([], r) == r
  {
    if r.Success? {
      assert [] + r.value == r.value;
    }
  }

  lemma PrependAssoc(acc: seq<Release>, page: seq<Release>, r: Result<seq<Release>, string>)
    ensures Prepend(acc, Prepend(page, r)) == Prepend(acc + page, r)
  {
    if r.Success? {
      assert acc + (page + r.value) == acc + page + r.value;
    }
  }

  // ---------------------------------------------------------------------------
  // fetch_changelog
  // ---------------------------------------------------------------------------

  datatype Strategy = Releases | RawFiles

  /** With a token the releases API is tried first; without one, the raw files. */
  function StrategyOrder(token: string): (order: seq<Strategy>)
  {
    if token != "" then [Releases, RawFiles] else [RawFiles, Releases]
  }

  function RunStrategy(s: Strategy, repositoryUrl: string, token: string, services: Services): (r: Result<string, string>)
  {
    match s
    case Releases => FromReleases(repositoryUrl, token, services)
    case RawFiles => FromGitHub(repositoryUrl, services)
  }

  /** The outcome of each strategy, in order. */
  function Outcomes(order: seq<Strategy>, repositoryUrl: string, token: string, services: Services)
    : (rs: seq<Result<string, string>>)
    ensures |rs| == |order|
    ensures forall k :: 0 <= k < |order| ==> rs[k] == RunStrategy(order[k], repositoryUrl, token, services)
  {
    seq(|order|, k requires 0 <= k < |order| => RunStrategy(order[k], repositoryUrl, token, services))
  }

  /** The text of the first outcome that succeeds. */
  function FirstSuccess(rs: seq<Result<string, string>>): (t: Option<string>)
    ensures t.None? <==> forall k :: 0 <= k < |rs| ==> rs[k].Failure?
    ensures t.Some? ==> exists k :: 0 <= k < |rs| && rs[k] == Success(t.value) &&
                                    forall j :: 0 <= j < k ==> rs[j].Failure?
  {
    if rs == [] then None
    else if rs[0].Success? then Some(rs[0].value)
    else
      var rest := FirstSuccess(rs[1..]);
      assert forall k :: 1 <= k < |rs| ==> rs[k] == rs[1..][k - 1];
      if rest.Some? then FirstAfterFailure(rs, rest.value); rest else rest
  }

  /** A success that is first after the head is first in the whole list when the head failed. */
  lemma FirstAfterFailure(rs: seq<Result<string, string>>, v: string)
    requires rs != [] && rs[0].Failure?
    requires exists k :: 0 <= k < |rs| - 1 && rs[1..][k] == Success(v) && forall j :: 0 <= j < k ==> rs[1..][j].Failure?
    ensures exists k :: 0 <= k < |rs| && rs[k] == Success(v) && forall j :: 0 <= j < k ==> rs[j].Failure?
  {
    var k :| 0 <= k < |rs| - 1 && rs[1..][k] == Success(v) && forall j :: 0 <= j < k ==> rs[1..][j].Failure?;
    assert rs[k + 1] == Success(v);
    assert forall j :: 1 <= j < k + 1 ==> rs[j] == rs[1..][j - 1];
  }

  /** The first strategy, in order, that succeeds. */
  function FirstStrategy(order: seq<Strategy>, repositoryUrl: string, token: string, services: Services)
    : (t: Option<string>)
    ensures t.None? <==> forall k :: 0 <= k < |order| ==> RunStrategy(order[k], repositoryUrl, token, services).Failure?
  {
    FirstSuccess(Outcomes(order, repositoryUrl, token, services))
  }

  function NoUrlWarning(dep: string): (w: string)
  {
    "No changelog URL or repository URL provided for " + dep
  }

  function CouldNotFetchWarning(dep: string): (w: string)
  {
    "Could not fetch changelog for " + dep
  }

  /** The text and warnings `fetch_changelog` returns. */
  function FetchOutcome(changelogUrl: Option<string>, repositoryUrl: Option<string>, dep: string,
                        token: string, services: Services): (o: (string, seq<string>))
  {
    if !Truthy(changelogUrl) && !Truthy(repositoryUrl) then ("", [NoUrlWarning(dep)])
    else if Truthy(changelogUrl) && FromUrl(changelogUrl.value, services).Success? then
      (FromUrl(changelogUrl.value, services).value, [])
    else if Truthy(repositoryUrl) && FirstStrategy(StrategyOrder(token), repositoryUrl.value, token, services).Some? then
      (FirstStrategy(StrategyOrder(token), repositoryUrl.value, token, services).value, [])
    else ("", [CouldNotFetchWarning(dep)])
  }

  /** `fetch_changelog`: every failure is caught and becomes the final warning. */
  method FetchChangelog(changelogUrl: Option<string>, repositoryUrl: Option<string>, dep: string,
                        token: string, services: Services)
    returns (text: string, warnings: seq<string>)
    ensures (text, warnings) == FetchOutcome(changelogUrl, repositoryUrl, dep, token, services)
  {
    if !Truthy(changelogUrl) && !Truthy(repositoryUrl) {
      return "", [NoUrlWarning(dep)];
    }
    if Truthy(changelogUrl) {
      var direct := FromUrl(changelogUrl.value, services);
      if direct.Success? {
        return direct.value, [];
      }
    }
    if Truthy(repositoryUrl) {
      var ordered := StrategyOrder(token);
      ghost var outcomes := Outcomes(ordered, repositoryUrl.value, token, services);
      for k := 0 to |ordered|
        invariant FirstStrategy(ordered, repositoryUrl.value, token, services) == FirstSuccess(outcomes[k..])
      {
        var r: Result<string, string>;
        if ordered[k] == Releases {
          r := FetchFromGitHubReleases(repositoryUrl.value, token, services);
        } else {
          r := FetchFromGitHub(repositoryUrl.value, services);
        }
        if r.Success? {
          return r.value, [];
        }
        assert outcomes[k..][1..] == outcomes[k + 1..];
      }
    }
    return "", [CouldNotFetchWarning(dep)];
  }

  /** The outcome is either a text and no warnings, or no text and exactly one warning:
      the no-URL warning only when neither URL is given, otherwise the could-not-fetch one. */
  lemma OutcomeShape(changelogUrl: Option<string>, repositoryUrl: Option<string>, dep: string,
                     token: string, services: Services)
    ensures var (text, warnings) := FetchOutcome(changelogUrl, repositoryUrl, dep, token, services);
      (warnings == [] || (text == "" && |warnings| == 1)) &&
      (!Truthy(changelogUrl) && !Truthy(repositoryUrl) <==> warnings == [NoUrlWarning(dep)])
  {
    assert |NoUrlWarning(dep)| != |CouldNotFetchWarning(dep)|;
  }

  /** The direct URL wins whenever it gives a text. */
  lemma DirectUrlFirst(changelogUrl: Option<string>, repositoryUrl: Option<string>, dep: string,
                       token: string, services: Services)
    requires Truthy(changelogUrl) && FromUrl(changelogUrl.value, services).Success?
    ensures FetchOutcome(changelogUrl, repositoryUrl, dep, token, services) ==
            (FromUrl(changelogUrl.value, services).value, [])
  {
  }

  /** With a token, working release notes are used even when the raw files would work too;
      without one, working raw files are used even when the releases would work too. */
  lemma TokenDecidesOrder(changelogUrl: Option<string>, repositoryUrl: Option<string>, dep: string,
                          token: string, services: Services)
    requires !(Truthy(changelogUrl) && FromUrl(changelogUrl.value, services).Success?)
    requires Truthy(repositoryUrl)
    ensures token != "" && FromReleases(repositoryUrl.value, token, services).Success? ==>
      FetchOutcome(changelogUrl, repositoryUrl, dep, token, services) ==
      (FromReleases(repositoryUrl.value, token, services).value, [])
    ensures token == "" && FromGitHub(repositoryUrl.value, services).Success? ==>
      FetchOutcome(changelogUrl, repositoryUrl, dep, token, services) ==
      (FromGitHub(repositoryUrl.value, services).value, [])
  {
    if Truthy(changelogUrl) || Truthy(repositoryUrl) {
      FirstOfTwo(StrategyOrder(token), repositoryUrl.value, token, services);
    }
  }

  /** With two strategies the first that works is the first one when it works, and
      otherwise the second one when that works. */
  lemma FirstOfTwo(order: seq<Strategy>, repositoryUrl: string, token: string, services: Services)
    requires |order| == 2
    ensures var r0 := RunStrategy(order[0], repositoryUrl, token, services);
      var r1 := RunStrategy(order[1], repositoryUrl, token, services);
      FirstStrategy(order, repositoryUrl, token, services) ==
      if r0.Success? then Some(r0.value) else if r1.Success? then Some(r1.value) else None
  {
    var rs := Outcomes(order, repositoryUrl, token, services);
    assert rs[1..][1..] == [];
  }

  /** When the URL and both repository strategies fail, nothing raises: the result is
      the empty text and the could-not-fetch warning. */
  lemma AllFail(changelogUrl: Option<string>, repositoryUrl: Option<string>, dep: string,
                token: string, services: Services)
    requires Truthy(changelogUrl) || Truthy(repositoryUrl)
    requires Truthy(changelogUrl) ==> FromUrl(changelogUrl.value, services).Failure?
    requires Truthy(repositoryUrl) ==>
      FromReleases(repositoryUrl.value, token, services).Failure? && FromGitHub(repositoryUrl.value, services).Failure?
    ensures FetchOutcome(changelogUrl, repositoryUrl, dep, token, services) == ("", [CouldNotFetchWarning(dep)])
  {
  }
}
