/** Registry metadata: the URL fields read from PyPI and npm answers, the "strictly
    newer" test, and the outdated-dependency filter.  The HTTP requests themselves are
    given as lookup functions. */
module Registry {
  import opened Wrappers
  import opened Text
  import opened Schemas
  import Versions

  // ---------------------------------------------------------------------------
  // project_urls dictionaries
  // ---------------------------------------------------------------------------

  /** One entry of a JSON object, in document order. */
  datatype Entry = Entry(key: string, url: string)

  /** Python's `d.get(key)` on a JSON object listed in document order. A repeated key
      keeps its last value, as `json.loads` does. */
  function Lookup(d: seq<Entry>, key: string): (r: Option<string>)
    ensures r.Some? <==> exists i :: 0 <= i < |d| && d[i].key == key
    ensures r.Some? ==> exists i :: 0 <= i < |d| && d[i].key == key && d[i].url == r.value &&
                          forall j :: i < j < |d| ==> d[j].key != key
    decreases |d|
  {
    if |d| == 0 then None
    else if d[|d| - 1].key == key then Some(d[|d| - 1].url)
    else
      var r := Lookup(d[..|d| - 1], key);
      assert forall i :: 0 <= i < |d| - 1 ==> d[..|d| - 1][i] == d[i];
      r
  }

  const RepoKeys: seq<string> := ["Source", "Source Code", "Repository", "Code", "GitHub"]
  const ChangelogKeys: seq<string> :=
    ["Changelog", "Changes", "Change Log", "Release Notes", "History", "What's New"]

  /** The first of `keys` that `d` holds, with its value. */
  function FirstPresent(d: seq<Entry>, keys: seq<string>): (r: Option<string>)
    ensures r.Some? <==> exists j :: 0 <= j < |keys| && Lookup(d, keys[j]).Some?
    ensures r.Some? ==> exists j :: 0 <= j < |keys| && Lookup(d, keys[j]) == r &&
                          forall j' :: 0 <= j' < j ==> Lookup(d, keys[j']).None?
    decreases |keys|
  {
    if |keys| == 0 then None
    else if Lookup(d, keys[0]).Some? then Lookup(d, keys[0])
    else
      var r := FirstPresent(d, keys[1..]);
      assert forall j :: 1 <= j < |keys| ==> keys[1..][j - 1] == keys[j];
      if r.Some? then FirstPresentShift(d, keys, r); r else r
  }

  /** A key that is first present after the head is first present in `keys` when the head
      is absent. */
  lemma FirstPresentShift(d: seq<Entry>, keys: seq<string>, r: Option<string>)
    requires keys != [] && Lookup(d, keys[0]).None?
    requires exists j :: 0 <= j < |keys| - 1 && Lookup(d, keys[1..][j]) == r &&
                         forall j' :: 0 <= j' < j ==> Lookup(d, keys[1..][j']).None?
    ensures exists j :: 0 <= j < |keys| && Lookup(d, keys[j]) == r &&
                        forall j' :: 0 <= j' < j ==> Lookup(d, keys[j']).None?
  {
    var j :| 0 <= j < |keys| - 1 && Lookup(d, keys[1..][j]) == r &&
             forall j' :: 0 <= j' < j ==> Lookup(d, keys[1..][j']).None?;
    assert keys[j + 1] == keys[1..][j];
    assert forall j' :: 1 <= j' < j + 1 ==> keys[j'] == keys[1..][j' - 1];
  }

  predicate IsForgeUrl(url: string) {
    Contains(url, "github.com") || Contains(url, "gitlab.com")
  }

  /** The first URL (in dictionary order) on GitHub or GitLab. */
  function FirstForgeUrl(d: seq<Entry>): (r: Option<string>)
    ensures r.Some? <==> exists i :: 0 <= i < |d| && IsForgeUrl(d[i].url)
    ensures r.Some? ==> exists i :: 0 <= i < |d| && d[i].url == r.value && IsForgeUrl(r.value) &&
                          forall i' :: 0 <= i' < i ==> !IsForgeUrl(d[i'].url)
    decreases |d|
  {
    if |d| == 0 then None
    else if IsForgeUrl(d[0].url) then Some(d[0].url)
    else
      var r := FirstForgeUrl(d[1..]);
      assert forall i :: 1 <= i < |d| ==> d[1..][i - 1] == d[i];
      r
  }

  /** `_strip_url_fragment`: the text before the first `#`. */
  function StripUrlFragment(url: string): (r: string)
    ensures StartsWith(url, r) && '#' !in r
    ensures '#' !in url ==> r == url
  {
    BeforeFacts(url, '#');
    Split(url, '#')[0]
  }

  /** The stripped URL is the prefix of the URL before its first `#`: it holds no `#`,
      and a URL without `#` is left alone. */
  lemma StripUrlFragmentFacts(url: string)
    ensures StripUrlFragment(url) == Before(url, '#')
    ensures StartsWith(url, StripUrlFragment(url))
    ensures '#' !in StripUrlFragment(url)
    ensures '#' !in url ==> StripUrlFragment(url) == url
    ensures |StripUrlFragment(url)| < |url| ==> url[|StripUrlFragment(url)|] == '#'
  {
    BeforeFacts(url, '#');
  }

  /** Stripping twice is stripping once. */
  lemma StripUrlFragmentIdempotent(url: string)
    ensures StripUrlFragment(StripUrlFragment(url)) == StripUrlFragment(url)
  {
    StripUrlFragmentFacts(url);
    StripUrlFragmentFacts(StripUrlFragment(url));
  }

  /** `_extract_repo_url`: the first repository key in priority order; failing that the
      first GitHub or GitLab URL; always without its fragment. */
  function ExtractRepoUrl(projectUrls: Option<seq<Entry>>): (r: Option<string>)
    ensures (projectUrls.None? || projectUrls.value == []) ==> r.None?
    ensures projectUrls.Some? && FirstPresent(projectUrls.value, RepoKeys).Some? ==>
              r == Some(StripUrlFragment(FirstPresent(projectUrls.value, RepoKeys).value))
    ensures projectUrls.Some? && FirstPresent(projectUrls.value, RepoKeys).None? ==>
              r == (match FirstForgeUrl(projectUrls.value)
                    case Some(u) => Some(StripUrlFragment(u))
                    case None => None)
  {
    if projectUrls.None? || projectUrls.value == [] then None
    else
      match FirstPresent(projectUrls.value, RepoKeys)
      case Some(u) => Some(StripUrlFragment(u))
      case None =>
        match FirstForgeUrl(projectUrls.value)
        case Some(u) => Some(StripUrlFragment(u))
        case None => None
  }

  /** A repository URL extracted from the project URLs never carries a fragment. */
  lemma ExtractedRepoUrlHasNoFragment(projectUrls: Option<seq<Entry>>)
    requires ExtractRepoUrl(projectUrls).Some?
    ensures '#' !in ExtractRepoUrl(projectUrls).value
  {
    var d := projectUrls.value;
    match FirstPresent(d, RepoKeys)
    case Some(u) => StripUrlFragmentFacts(u);
    case None => StripUrlFragmentFacts(FirstForgeUrl(d).value);
  }

  /** `_extract_changelog_url`: the value of the first changelog key, unmodified. */
  function ExtractChangelogUrl(projectUrls: Option<seq<Entry>>): (r: Option<string>)
    ensures (projectUrls.None? || projectUrls.value == []) ==> r.None?
    ensures projectUrls.Some? ==> r == FirstPresent(projectUrls.value, ChangelogKeys)
  {
    if projectUrls.None? then None else FirstPresent(projectUrls.value, ChangelogKeys)
  }

  // ---------------------------------------------------------------------------
  // versions
  // ---------------------------------------------------------------------------

  /** `_is_newer`: release comparison when both parse, string inequality otherwise. */
  function IsNewer(latest: string, current: string): (b: bool)
  {
    match (Versions.ParseRelease(latest), Versions.ParseRelease(current))
    case (Some(l), Some(c)) => Versions.Cmp(l, c) == 1
    case _ => latest != current
  }

  /** On valid versions newer-than is the release order: padded segment comparison. */
  lemma IsNewerRendered(a: Versions.Release, b: Versions.Release)
    requires |a| >= 1 && |b| >= 1
    ensures IsNewer(Versions.Render(a), Versions.Render(b)) <==> Versions.Cmp(a, b) == 1
  {
    Versions.RenderParse(a);
    Versions.RenderParse(b);
  }

  /** A release followed by `.0` is the same release in either order: neither is newer. */
  lemma TrailingZeroNotNewer(v: Versions.Release)
    requires |v| >= 1
    ensures !IsNewer(Versions.Render(v) + ".0", Versions.Render(v))
    ensures !IsNewer(Versions.Render(v), Versions.Render(v) + ".0")
  {
    Versions.TrailingZeroText(v);
    Versions.RenderParse(v);
    Versions.CmpAntisymmetric(v + [0], v);
  }

  lemma RenderZeroThirteen()
    ensures Versions.Render([0, 13]) == "0.13"
  {
    assert DigitChar(0) == '0' && DigitChar(1) == '1' && DigitChar(3) == '3';
    assert NatToString(13) == NatToString(1) + [DigitChar(3)] == "13";
    var gs := Versions.RenderGroups([0, 13]);
    assert gs[0] == "0" && gs[1] == "13" && |gs| == 2;
    assert Join(gs, ".") == gs[0] + "." + Join(gs[1..], ".");
  }

  /** `"0.13"` is not newer than `"0.13.0"`, nor the other way round. */
  lemma ZeroThirteenNotNewer(short: string, long: string)
    requires short == "0.13" && long == "0.13.0"
    ensures !IsNewer(long, short) && !IsNewer(short, long)
  {
    RenderZeroThirteen();
    assert long == short + ".0";
    TrailingZeroNotNewer([0, 13]);
  }

  /** No version string is newer than itself, whether or not it is a valid version. */
  lemma IsNewerIrreflexive(v: string)
    ensures !IsNewer(v, v)
  {
    if Versions.ParseRelease(v).Some? {
      Versions.CmpAntisymmetric(Versions.ParseRelease(v).value, Versions.ParseRelease(v).value);
    }
  }

  /** Newer-than is irreflexive and, on valid versions, asymmetric. */
  lemma IsNewerAsymmetric(a: string, b: string)
    requires Versions.ParseRelease(a).Some? && Versions.ParseRelease(b).Some?
    ensures !IsNewer(a, a)
    ensures IsNewer(a, b) ==> !IsNewer(b, a)
  {
    var x := Versions.ParseRelease(a).value;
    var y := Versions.ParseRelease(b).value;
    Versions.CmpZeroIffPaddedEqual(x, x);
    Versions.CmpAntisymmetric(x, y);
  }

  // ---------------------------------------------------------------------------
  // registry answers
  // ---------------------------------------------------------------------------

  /** The `info` object of a PyPI JSON answer. */
  datatype PypiInfo = PypiInfo(
    name: string,
    version: string,
    homePage: Option<string>,
    projectUrls: Option<seq<Entry>>)

  /** What the `repository` field of an npm answer can be. */
  datatype NpmRepository =
    | RepoAbsent
    | RepoObject(url: Option<string>)
    | RepoString(s: string)
    | RepoOther

  /** The parts of an npm answer that are read. */
  datatype NpmPackage = NpmPackage(
    name: string,
    distTags: Option<map<string, string>>,
    homepage: Option<string>,
    repository: NpmRepository)

  function PypiRegistryInfo(info: PypiInfo): (r: RegistryInfo)
    ensures r.name == info.name && r.latestVersion == info.version
    ensures r.homepageUrl == info.homePage
    ensures r.repositoryUrl == ExtractRepoUrl(info.projectUrls)
    ensures r.changelogUrl == ExtractChangelogUrl(info.projectUrls)
  {
    RegistryInfo(info.name, info.version, info.homePage,
                 ExtractRepoUrl(info.projectUrls), ExtractChangelogUrl(info.projectUrls))
  }

  /** `re.sub(r"^git\+", "", s)` */
  function DropGitPlus(s: string): (r: string)
    ensures StartsWith(s, "git+") ==> r == s[4..]
    ensures !StartsWith(s, "git+") ==> r == s
  {
    if StartsWith(s, "git+") then s[4..] else s
  }

  /** `re.sub(r"\.git$", "", s)`: `$` also matches just before a final newline. */
  function DropDotGit(s: string): (r: string)
    ensures EndsWith(s, ".git") ==> r == s[..|s| - 4]
    ensures !EndsWith(s, ".git") && EndsWith(s, ".git\n") ==> r == s[..|s| - 5] + "\n"
    ensures !EndsWith(s, ".git") && !EndsWith(s, ".git\n") ==> r == s
  {
    if EndsWith(s, ".git") then s[..|s| - 4]
    else if EndsWith(s, ".git\n") then s[..|s| - 5] + "\n"
    else s
  }

  /** The repository URL of an npm answer, before the empty string becomes `None`. */
  function NpmRepoText(repo: NpmRepository): (r: Option<string>)
  {
    match repo
    case RepoObject(url) => Some(DropDotGit(DropGitPlus(url.GetOr(""))))
    case RepoString(s) => Some(s)
    case _ => None
  }

  function NpmRegistryInfo(pkg: NpmPackage): (r: RegistryInfo)
    ensures r.name == pkg.name && r.homepageUrl == pkg.homepage && r.changelogUrl.None?
    ensures r.latestVersion ==
      (if pkg.distTags.Some? && "latest" in pkg.distTags.value then pkg.distTags.value["latest"]
       else "0.0.0")
    ensures r.repositoryUrl.Some? ==> r.repositoryUrl.value != []
    ensures r.repositoryUrl.None? <==> (NpmRepoText(pkg.repository).None? ||
                                       NpmRepoText(pkg.repository).value == [])
  {
    var latest := if pkg.distTags.Some? && "latest" in pkg.distTags.value
                  then pkg.distTags.value["latest"] else "0.0.0";
    var repo := NpmRepoText(pkg.repository);
    RegistryInfo(pkg.name, latest, pkg.homepage,
                 if repo.Some? && repo.value != [] then repo else None, None)
  }

  /** A `git+https://….git` repository object gives the plain `https://…` URL. */
  lemma NpmGitUrlCleaned(body: string)
    requires body != [] && !EndsWith("git+" + body, ".git\n")
    ensures NpmRepoText(RepoObject(Some("git+" + body + ".git"))) == Some(body)
  {
    var s := "git+" + body + ".git";
    assert StartsWith(s, "git+") && s[4..] == body + ".git";
    assert EndsWith(body + ".git", ".git");
    assert (body + ".git")[..|body|] == body;
  }

  /** `query_registry`: python asks PyPI, nodejs asks npm; the ecosystem has no other
      value.  A failed request is a `Failure` carrying its message. */
  function QueryRegistry(name: string, ecosystem: Ecosystem,
                         pypi: string -> Result<PypiInfo, string>,
                         npm: string -> Result<NpmPackage, string>): (r: Result<RegistryInfo, string>)
    ensures ecosystem == Python ==>
      r == (match pypi(name)
            case Success(info) => Success(PypiRegistryInfo(info))
            case Failure(e) => Failure(e))
    ensures ecosystem == Nodejs ==>
      r == (match npm(name)
            case Success(pkg) => Success(NpmRegistryInfo(pkg))
            case Failure(e) => Failure(e))
  {
    match ecosystem
    case Python =>
      (match pypi(name)
       case Success(info) => Success(PypiRegistryInfo(info))
       case Failure(e) => Failure(e))
    case Nodejs =>
      (match npm(name)
       case Success(pkg) => Success(NpmRegistryInfo(pkg))
       case Failure(e) => Failure(e))
  }

  // ---------------------------------------------------------------------------
  // find_outdated
  // ---------------------------------------------------------------------------

  function FailureMessage(name: string, error: string): (m: string)
  {
    "Registry query failed for " + name + ": " + error
  }

  lemma FailureMessageNamesDep(name: string, error: string)
    ensures Contains(FailureMessage(name, error), name)
  {
    var m := FailureMessage(name, error);
    assert m[26..26 + |name|] == name;
    assert OccursAt(m, name, 26);
  }

  /** The outdated entry a lookup yields for one dependency, if any. */
  function CheckOne(d: Dependency, answer: Result<RegistryInfo, string>): (o: Option<OutdatedDependency>)
    ensures o.Some? <==> answer.Success? && IsNewer(answer.value.latestVersion, d.currentVersion)
    ensures o.Some? ==> o.value == MakeOutdated(d, answer.value)
  {
    match answer
    case Success(info) => if IsNewer(info.latestVersion, d.currentVersion) then Some(MakeOutdated(d, info)) else None
    case Failure(_) => None
  }

  /** The outdated entries of `deps`, in input order. */
  function OutdatedOf(deps: seq<Dependency>, lookup: Dependency -> Result<RegistryInfo, string>):
    (os: seq<OutdatedDependency>)
    ensures |os| <= |deps|
  {
    Present((d: Dependency) => CheckOne(d, lookup(d)), deps)
  }

  /** One error message per failed lookup, in input order. */
  function ErrorsOf(deps: seq<Dependency>, lookup: Dependency -> Result<RegistryInfo, string>):
    (es: seq<string>)
    ensures |es| <= |deps|
  {
    if |deps| == 0 then []
    else
      var rest := ErrorsOf(deps[..|deps| - 1], lookup);
      var d := deps[|deps| - 1];
      match lookup(d)
      case Failure(e) => rest + [FailureMessage(d.name, e)]
      case Success(_) => rest
  }

  /** `find_outdated`, with the registries as one lookup function. */
  method FindOutdated(deps: seq<Dependency>, lookup: Dependency -> Result<RegistryInfo, string>)
    returns (outdated: seq<OutdatedDependency>, errors: seq<string>)
    ensures deps == [] ==> outdated == [] && errors == []
    ensures outdated == OutdatedOf(deps, lookup)
    ensures errors == ErrorsOf(deps, lookup)
  {
    if |deps| == 0 {
      return [], [];
    }
    outdated, errors := [], [];
    for i := 0 to |deps|
      invariant outdated == OutdatedOf(deps[..i], lookup)
      invariant errors == ErrorsOf(deps[..i], lookup)
    {
      var answer := lookup(deps[i]);
      match answer {
        case Failure(e) =>
          assert OutdatedOf(deps[..i + 1], lookup) == outdated &&
                 ErrorsOf(deps[..i + 1], lookup) == errors + [FailureMessage(deps[i].name, e)] by {
            OutdatedStep(deps, lookup, i);
            ErrorsStep(deps, lookup, i);
          }
          errors := errors + [FailureMessage(deps[i].name, e)];
        case Success(info) =>
          if IsNewer(info.latestVersion, deps[i].currentVersion) {
            assert OutdatedOf(deps[..i + 1], lookup) == outdated + [MakeOutdated(deps[i], info)] &&
                   ErrorsOf(deps[..i + 1], lookup) == errors by {
              OutdatedStep(deps, lookup, i);
              ErrorsStep(deps, lookup, i);
            }
            outdated := outdated + [MakeOutdated(deps[i], info)];
          } else {
            assert OutdatedOf(deps[..i + 1], lookup) == outdated && ErrorsOf(deps[..i + 1], lookup) == errors by {
              OutdatedStep(deps, lookup, i);
              ErrorsStep(deps, lookup, i);
            }
          }
      }
    }
    assert deps[..|deps|] == deps;
  }

  /** One more dependency adds its outdated entry, if it has one. */
  lemma OutdatedStep(deps: seq<Dependency>, lookup: Dependency -> Result<RegistryInfo, string>, i: nat)
    requires i < |deps|
    ensures var o := CheckOne(deps[i], lookup(deps[i]));
      OutdatedOf(deps[..i + 1], lookup) ==
        OutdatedOf(deps[..i], lookup) + (if o.Some? then [o.value] else [])
  {
    assert deps[..i + 1][..i] == deps[..i];
    assert deps[..i + 1][i] == deps[i];
  }

  /** One more dependency adds its error message, if its lookup failed. */
  lemma ErrorsStep(deps: seq<Dependency>, lookup: Dependency -> Result<RegistryInfo, string>, i: nat)
    requires i < |deps|
    ensures var r := lookup(deps[i]);
      ErrorsOf(deps[..i + 1], lookup) ==
        ErrorsOf(deps[..i], lookup) + (if r.Failure? then [FailureMessage(deps[i].name, r.error)] else [])
  {
    assert deps[..i + 1][..i] == deps[..i];
    assert deps[..i + 1][i] == deps[i];
  }

  /** An entry is in the outdated list iff some dependency's lookup succeeded with a newer
      latest version and the entry is built from that dependency and answer. */
  lemma OutdatedMembership(deps: seq<Dependency>,
                            lookup: Dependency -> Result<RegistryInfo, string>,
                            o: OutdatedDependency)
    ensures o in OutdatedOf(deps, lookup) <==>
      exists i :: 0 <= i < |deps| && CheckOne(deps[i], lookup(deps[i])) == Some(o)
  {
    PresentMembership((d: Dependency) => CheckOne(d, lookup(d)), deps, o);
  }

  /** There are exactly as many errors as failed lookups. */
  lemma {:induction false} ErrorsCountFailures(deps: seq<Dependency>,
                                               lookup: Dependency -> Result<RegistryInfo, string>)
    ensures |ErrorsOf(deps, lookup)| == |set i | 0 <= i < |deps| && lookup(deps[i]).Failure?|
    decreases |deps|
  {
    if |deps| > 0 {
      var n := |deps| - 1;
      var init := deps[..n];
      ErrorsCountFailures(init, lookup);
      var before := set i | 0 <= i < n && lookup(init[i]).Failure?;
      var all := set i | 0 <= i < |deps| && lookup(deps[i]).Failure?;
      assert forall i :: 0 <= i < n ==> init[i] == deps[i];
      if lookup(deps[n]).Failure? {
        assert all == before + {n};
      } else {
        assert all == before;
      }
    }
  }

  /** Every error names a dependency whose lookup failed. */
  lemma {:induction false} ErrorsNameFailedDeps(deps: seq<Dependency>,
                                                lookup: Dependency -> Result<RegistryInfo, string>,
                                                j: nat)
    requires j < |ErrorsOf(deps, lookup)|
    ensures exists i :: 0 <= i < |deps| && lookup(deps[i]).Failure? &&
                        Contains(ErrorsOf(deps, lookup)[j], deps[i].name)
    decreases |deps|
  {
    var n := |deps| - 1;
    var init := deps[..n];
    var rest := ErrorsOf(init, lookup);
    if lookup(deps[n]).Failure? {
      var m := FailureMessage(deps[n].name, lookup(deps[n]).error);
      assert ErrorsOf(deps, lookup) == rest + [m];
      if j == |rest| {
        FailureMessageNamesDep(deps[n].name, lookup(deps[n]).error);
      } else {
        ErrorsNameFailedDeps(init, lookup, j);
        var i :| 0 <= i < n && lookup(init[i]).Failure? && Contains(rest[j], init[i].name);
        assert init[i] == deps[i];
      }
    } else {
      assert ErrorsOf(deps, lookup) == rest;
      ErrorsNameFailedDeps(init, lookup, j);
      var i :| 0 <= i < n && lookup(init[i]).Failure? && Contains(rest[j], init[i].name);
      assert init[i] == deps[i];
    }
  }
}
