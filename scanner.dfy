/** Manifest scanning: the four manifest parsers over already-decoded contents, the
    directory-pruning rule of the project walk, and the first-occurrence deduplication
    of the dependencies found. */
module Scanner {
  import opened Wrappers
  import opened Text
  import opened Schemas

  // ---------------------------------------------------------------------------
  // which files and directories are looked at
  // ---------------------------------------------------------------------------

  const SkipDirs: set<string> := {
    "node_modules", ".venv", "venv", "__pycache__", ".git", ".tox", ".nox",
    ".mypy_cache", ".ruff_cache", ".pytest_cache", "dist", "build", ".eggs"
  }

  const ManifestNames: set<string> := {"requirements.txt", "pyproject.toml", "Pipfile", "package.json"}

  /** `MANIFEST_PATTERNS.get(fname)` */
  function ManifestEcosystem(fname: string): (e: Option<Ecosystem>)
    ensures e.Some? <==> fname in ManifestNames
    ensures e == Some(Nodejs) <==> fname == "package.json"
  {
    if fname == "package.json" then Some(Nodejs)
    else if fname in ManifestNames then Some(Python)
    else None
  }

  /** `[d for d in dirnames if d not in _SKIP_DIRS]` */
  function PruneDirs(dirnames: seq<string>): (kept: seq<string>)
    ensures |kept| <= |dirnames|
    ensures forall d :: d in kept <==> d in dirnames && d !in SkipDirs
  {
    if |dirnames| == 0 then []
    else
      var rest := PruneDirs(dirnames[..|dirnames| - 1]);
      var last := dirnames[|dirnames| - 1];
      assert dirnames == dirnames[..|dirnames| - 1] + [last];
      if last in SkipDirs then rest else rest + [last]
  }

  // ---------------------------------------------------------------------------
  // the requirement-specifier regular expressions
  // ---------------------------------------------------------------------------

  predicate IsAsciiAlnum(c: char) {
    IsLetter(c) || IsDigit(c)
  }

  /** `[A-Za-z0-9._-]` */
  predicate IsNameChar(c: char) {
    IsAsciiAlnum(c) || c == '.' || c == '_' || c == '-'
  }

  /** `[0-9A-Za-z.*]` */
  predicate IsVersionChar(c: char) {
    IsAsciiAlnum(c) || c == '.' || c == '*'
  }

  /** A package name as the specifier patterns accept it. */
  predicate IsPackageName(n: string) {
    |n| > 0 && AllChars(n, IsNameChar) && IsAsciiAlnum(n[0]) && IsAsciiAlnum(n[|n| - 1])
  }

  /** The characters that begin a two-character operator `~=`, `==`, `>=`, `<=`, `!=`. */
  predicate IsOperatorLead(c: char) {
    c == '~' || c == '=' || c == '>' || c == '<' || c == '!'
  }

  /** The alternation `~=|==|>=|<=|!=|>|<`. */
  predicate IsOperator(op: string) {
    (|op| == 2 && IsOperatorLead(op[0]) && op[1] == '=') || (|op| == 1 && (op[0] == '>' || op[0] == '<'))
  }

  /** The length of the operator at `s[i..]`, 0 when there is none.  The two-character
      forms are tried first, as the alternation lists them. */
  function OperatorAt(s: string, i: nat): (n: nat)
    requires i <= |s|
    ensures n <= |s| - i && n <= 2
    ensures n > 0 ==> IsOperator(s[i..i + n])
  {
    if i + 1 < |s| && s[i + 1] == '=' && IsOperatorLead(s[i]) then 2
    else if i < |s| && (s[i] == '>' || s[i] == '<') then 1
    else 0
  }

  /** Where the optional extras `(\[[^\]]*\])?` end, starting at `k`. */
  function ExtrasEnd(s: string, k: nat, extras: bool): (j: nat)
    requires k <= |s|
    ensures k <= j <= |s|
    ensures j > k ==> s[k] == '[' && s[j - 1] == ']'
  {
    if extras && k < |s| && s[k] == '[' then
      var close := FindFrom(s, ']', k + 1);
      if close < |s| then close + 1 else k
    else k
  }

  datatype Requirement = Requirement(name: string, version: string)

  /** `_REQ_LINE_RE.match(s)` when `extras` holds, `_PEP508_RE.match(s)` otherwise: the
      package name and the version after the first operator.  The name group is the
      whole leading run of name characters: a shorter name would be followed by a name
      character, and none of those can start extras, whitespace or an operator. */
  function MatchRequirement(s: string, extras: bool): (r: Option<Requirement>)
    ensures r.Some? ==> IsPackageName(r.value.name) && StartsWith(s, r.value.name)
    ensures r.Some? ==> |r.value.version| > 0 && IsDigit(r.value.version[0]) &&
                        AllChars(r.value.version, IsVersionChar) && Contains(s, r.value.version)
  {
    var k := RunEnd(s, IsNameChar, 0);
    if k == 0 || !IsAsciiAlnum(s[0]) || !IsAsciiAlnum(s[k - 1]) then None
    else MatchAfterName(s, k, RunEnd(s, IsSpace, ExtrasEnd(s, k, extras)))
  }

  /** The rest of the match once the name ends at `k` and the operator is looked for at `o`. */
  function MatchAfterName(s: string, k: nat, o: nat): (r: Option<Requirement>)
    requires 0 < k == RunEnd(s, IsNameChar, 0) && IsAsciiAlnum(s[0]) && IsAsciiAlnum(s[k - 1])
    requires o <= |s|
    ensures r.Some? ==> IsPackageName(r.value.name) && StartsWith(s, r.value.name)
    ensures r.Some? ==> |r.value.version| > 0 && IsDigit(r.value.version[0]) &&
                        AllChars(r.value.version, IsVersionChar) && Contains(s, r.value.version)
  {
    var n := OperatorAt(s, o);
    if n == 0 then None
    else
      var v := RunEnd(s, IsSpace, o + n);
      if v < |s| && IsDigit(s[v]) then
        var w := RunEnd(s, IsVersionChar, v);
        RequirementGroups(s, k, v);
        Some(Requirement(s[..k], s[v..w]))
      else None
  }

  /** The two groups of a match: a name run with alphanumeric ends, and a version run
      that opens with a digit. */
  lemma RequirementGroups(s: string, k: nat, v: nat)
    requires 0 < k == RunEnd(s, IsNameChar, 0) && IsAsciiAlnum(s[0]) && IsAsciiAlnum(s[k - 1])
    requires v < |s| && IsDigit(s[v])
    ensures IsPackageName(s[..k]) && StartsWith(s, s[..k])
    ensures var w := RunEnd(s, IsVersionChar, v);
      |s[v..w]| > 0 && IsDigit(s[v..w][0]) && AllChars(s[v..w], IsVersionChar) && Contains(s, s[v..w])
  {
    RunSlice(s, IsNameChar, 0);
    assert s[..k] == s[0..k];
    var w := RunEnd(s, IsVersionChar, v);
    RunSlice(s, IsVersionChar, v);
    SliceContained(s, v, w);
  }

  /** The match read off from the positions the pattern's groups end at. */
  lemma {:induction false} MatchAt(s: string, extras: bool, k: nat, o: nat, v: nat, w: nat)
    requires 0 < k <= |s| && IsAsciiAlnum(s[0]) && IsAsciiAlnum(s[k - 1])
    requires RunEnd(s, IsNameChar, 0) == k
    requires o == RunEnd(s, IsSpace, ExtrasEnd(s, k, extras))
    requires OperatorAt(s, o) > 0
    requires v == RunEnd(s, IsSpace, o + OperatorAt(s, o))
    requires v < |s| && IsDigit(s[v])
    requires w == RunEnd(s, IsVersionChar, v)
    ensures MatchRequirement(s, extras) == Some(Requirement(s[..k], s[v..w]))
  {
    assert MatchRequirement(s, extras) == MatchAfterName(s, k, o);
  }

  /** The match of a text whose name, operator and version end at `k`, `v` and `w`. */
  lemma MatchRequirementIn(s: string, extras: bool, k: nat, v: nat, w: nat)
    requires 0 < k < v < w <= |s|
    requires IsPackageName(s[..k]) && IsOperator(s[k..v]) && IsDigit(s[v])
    requires AllChars(s[v..w], IsVersionChar) && (w < |s| ==> !IsVersionChar(s[w]))
    ensures MatchRequirement(s, extras) == Some(Requirement(s[..k], s[v..w]))
  {
    NameRunEnd(s, k, v);
    OperatorRunEnds(s, extras, k, v);
    forall j | v <= j < w ensures IsVersionChar(s[j]) {
      assert s[v..w][j - v] == s[j];
    }
    RunEndOf(s, IsVersionChar, v, w);
    MatchAt(s, extras, k, k, v, w);
  }

  /** A package name followed by an operator is the whole leading run of name characters. */
  lemma NameRunEnd(s: string, k: nat, v: nat)
    requires 0 < k < v <= |s|
    requires IsPackageName(s[..k]) && IsOperator(s[k..v])
    ensures RunEnd(s, IsNameChar, 0) == k && IsAsciiAlnum(s[0]) && IsAsciiAlnum(s[k - 1])
  {
    assert s[..k][0] == s[0] && s[..k][k - 1] == s[k - 1];
    assert s[k..v][0] == s[k];
    forall j | 0 <= j < k ensures IsNameChar(s[j]) {
      assert s[..k][j] == s[j];
    }
    RunEndOf(s, IsNameChar, 0, k);
  }

  /** After the name come no extras and no spaces, the operator, and no spaces again. */
  lemma OperatorRunEnds(s: string, extras: bool, k: nat, v: nat)
    requires 0 < k < v < |s|
    requires IsOperator(s[k..v]) && IsDigit(s[v])
    ensures RunEnd(s, IsSpace, ExtrasEnd(s, k, extras)) == k
    ensures OperatorAt(s, k) == v - k
    ensures RunEnd(s, IsSpace, v) == v
  {
    assert s[k..v][0] == s[k];
    assert v == k + 1 ==> s[k + 1] == s[v];
    assert v > k + 1 ==> s[k..v][1] == s[k + 1];
    assert ExtrasEnd(s, k, extras) == k;
    RunEndOf(s, IsSpace, k, k);
    RunEndOf(s, IsSpace, v, v);
  }

  /** A specifier written as name, operator and version matches with that name and
      that version, whatever follows the version. */
  lemma MatchRequirementBuilt(name: string, op: string, version: string, rest: string, extras: bool)
    requires IsPackageName(name) && IsOperator(op)
    requires |version| > 0 && IsDigit(version[0]) && AllChars(version, IsVersionChar)
    requires rest == [] || !IsVersionChar(rest[0])
    ensures MatchRequirement(name + op + version + rest, extras) == Some(Requirement(name, version))
  {
    var s := name + op + version + rest;
    RequirementParts(s, name, op, version, rest);
    MatchRequirementIn(s, extras, |name|, |name| + |op|, |name| + |op| + |version|);
  }

  lemma RequirementParts(s: string, name: string, op: string, version: string, rest: string)
    requires s == name + op + version + rest && |version| > 0
    ensures var k, v := |name|, |name| + |op|;
      var w := v + |version|;
      w <= |s| && s[..k] == name && s[k..v] == op && s[v..w] == version && s[v] == version[0] &&
      (w < |s| ==> s[w] == rest[0])
  {
  }

  // ---------------------------------------------------------------------------
  // requirements.txt
  // ---------------------------------------------------------------------------

  /** Comments, blank lines and `-r`/`-c` includes. */
  predicate IsSkippedLine(t: string) {
    t == [] || t[0] == '#' || t[0] == '-'
  }

  function RequirementOfLine(line: string, path: string): (d: Option<Dependency>)
    ensures IsSkippedLine(Strip(line)) ==> d.None?
    ensures d.Some? ==> d.value.ecosystem == Python && d.value.manifestPath == path
  {
    var t := Strip(line);
    if IsSkippedLine(t) then None
    else
      match MatchRequirement(t, true)
      case Some(r) => Some(Dependency(r.name, r.version, Python, path))
      case None => None
  }

  /** The dependencies of the lines, in line order. */
  function RequirementsDeps(lines: seq<string>, path: string): (deps: seq<Dependency>)
    ensures |deps| <= |lines|
  {
    if |lines| == 0 then []
    else
      var rest := RequirementsDeps(lines[..|lines| - 1], path);
      match RequirementOfLine(lines[|lines| - 1], path)
      case Some(d) => rest + [d]
      case None => rest
  }

  /** `_parse_requirements_txt` on the text of the file. */
  method ParseRequirementsTxt(text: string, path: string) returns (deps: seq<Dependency>)
    ensures deps == RequirementsDeps(Lines(text), path)
  {
    var lines := Lines(text);
    deps := [];
    for i := 0 to |lines|
      invariant deps == RequirementsDeps(lines[..i], path)
    {
      var line := Strip(lines[i]);
      if !IsSkippedLine(line) {
        var m := MatchRequirement(line, true);
        if m.Some? {
          assert RequirementsDeps(lines[..i + 1], path) ==
                 deps + [Dependency(m.value.name, m.value.version, Python, path)] by {
            RequirementsStep(lines, path, i);
          }
          deps := deps + [Dependency(m.value.name, m.value.version, Python, path)];
        } else {
          assert RequirementsDeps(lines[..i + 1], path) == deps by {
            RequirementsStep(lines, path, i);
          }
        }
      } else {
        assert RequirementsDeps(lines[..i + 1], path) == deps by {
          RequirementsStep(lines, path, i);
        }
      }
    }
    assert lines[..|lines|] == lines;
  }

  /** One more line adds its dependency, if it names one. */
  lemma RequirementsStep(lines: seq<string>, path: string, i: nat)
    requires i < |lines|
    ensures var d := RequirementOfLine(lines[i], path);
      RequirementsDeps(lines[..i + 1], path) ==
        RequirementsDeps(lines[..i], path) + (if d.Some? then [d.value] else [])
  {
    assert lines[..i + 1][..i] == lines[..i];
    assert lines[..i + 1][i] == lines[i];
  }

  /** Every dependency read from a requirements file comes from one of its lines. */
  lemma {:induction false} RequirementsFromLines(lines: seq<string>, path: string, d: Dependency)
    requires d in RequirementsDeps(lines, path)
    ensures exists i :: 0 <= i < |lines| && RequirementOfLine(lines[i], path) == Some(d)
    decreases |lines|
  {
    var n := |lines| - 1;
    var rest := RequirementsDeps(lines[..n], path);
    if RequirementOfLine(lines[n], path) != Some(d) {
      assert d in rest;
      RequirementsFromLines(lines[..n], path, d);
      var i :| 0 <= i < n && RequirementOfLine(lines[..n][i], path) == Some(d);
      assert lines[..n][i] == lines[i];
    }
  }

  // ---------------------------------------------------------------------------
  // pyproject.toml
  // ---------------------------------------------------------------------------

  /** The `[project]` table: `dependencies` and the groups of `optional-dependencies`,
      each empty when absent. */
  datatype ProjectTable = ProjectTable(dependencies: seq<string>, optionalDependencies: seq<seq<string>>)

  function Flatten(groups: seq<seq<string>>): (r: seq<string>)
  {
    if |groups| == 0 then [] else Flatten(groups[..|groups| - 1]) + groups[|groups| - 1]
  }

  function SpecDependency(spec: string, path: string): (d: Option<Dependency>)
    ensures d.Some? ==> d.value.ecosystem == Python && d.value.manifestPath == path
  {
    match MatchRequirement(Strip(spec), false)
    case Some(r) => Some(Dependency(r.name, r.version, Python, path))
    case None => None
  }

  function SpecDeps(specs: seq<string>, path: string): (deps: seq<Dependency>)
    ensures |deps| <= |specs|
  {
    if |specs| == 0 then []
    else
      var rest := SpecDeps(specs[..|specs| - 1], path);
      match SpecDependency(specs[|specs| - 1], path)
      case Some(d) => rest + [d]
      case None => rest
  }

  /** Reading a list in two parts reads the first part first. */
  lemma {:induction false} SpecDepsAppend(a: seq<string>, b: seq<string>, path: string)
    ensures SpecDeps(a + b, path) == SpecDeps(a, path) + SpecDeps(b, path)
    decreases |b|
  {
    if |b| == 0 {
      assert a + b == a;
    } else {
      var n := |b| - 1;
      assert (a + b)[..|a + b| - 1] == a + b[..n];
      SpecDepsAppend(a, b[..n], path);
    }
  }

  /** `_parse_pyproject_toml`: `project` is `None` when the table is missing or empty. */
  method ParsePyprojectToml(project: Option<ProjectTable>, path: string) returns (deps: seq<Dependency>)
    ensures project.None? ==> deps == []
    ensures project.Some? ==>
      deps == SpecDeps(project.value.dependencies + Flatten(project.value.optionalDependencies), path)
  {
    deps := [];
    if project.None? {
      return;
    }
    var depStrings := AllDependencyStrings(project.value);
    deps := ParseSpecs(depStrings, path);
  }

  /** The main list extended by every optional group in turn. */
  method AllDependencyStrings(t: ProjectTable) returns (depStrings: seq<string>)
    ensures depStrings == t.dependencies + Flatten(t.optionalDependencies)
  {
    depStrings := t.dependencies;
    var groups := t.optionalDependencies;
    for g := 0 to |groups|
      invariant depStrings == t.dependencies + Flatten(groups[..g])
    {
      assert groups[..g + 1][..g] == groups[..g];
      depStrings := depStrings + groups[g];
    }
    assert groups[..|groups|] == groups;
  }

  method ParseSpecs(depStrings: seq<string>, path: string) returns (deps: seq<Dependency>)
    ensures deps == SpecDeps(depStrings, path)
  {
    deps := [];
    for i := 0 to |depStrings|
      invariant deps == SpecDeps(depStrings[..i], path)
    {
      assert depStrings[..i + 1][..i] == depStrings[..i];
      var m := MatchRequirement(Strip(depStrings[i]), false);
      if m.Some? {
        deps := deps + [Dependency(m.value.name, m.value.version, Python, path)];
      }
    }
    assert depStrings[..|depStrings|] == depStrings;
  }

  /** The main dependencies come first, then the optional groups in order. */
  lemma PyprojectOrder(t: ProjectTable, path: string)
    ensures SpecDeps(t.dependencies + Flatten(t.optionalDependencies), path) ==
            SpecDeps(t.dependencies, path) + SpecDeps(Flatten(t.optionalDependencies), path)
  {
    SpecDepsAppend(t.dependencies, Flatten(t.optionalDependencies), path);
  }

  /** `langgraph>=1.0.7,<2` is read as version `1.0.7`. */
  lemma LanggraphExample(spec: string, path: string)
    requires spec == "langgraph>=1.0.7,<2"
    ensures SpecDependency(spec, path) == Some(Dependency("langgraph", "1.0.7", Python, path))
  {
    assert spec == "langgraph" + ">=" + "1.0.7" + ",<2";
    assert IsPackageName("langgraph");
    assert AllChars("1.0.7", IsVersionChar);
    StripTrimmed(spec);
    MatchRequirementBuilt("langgraph", ">=", "1.0.7", ",<2", false);
  }

  // ---------------------------------------------------------------------------
  // Pipfile
  // ---------------------------------------------------------------------------

  datatype PipSpec = PipString(s: string) | PipTable(version: Option<string>)
  datatype PipEntry = PipEntry(name: string, spec: PipSpec)
  datatype PipfileData = PipfileData(packages: seq<PipEntry>, devPackages: seq<PipEntry>)

  /** A table spec reads its `version` key, defaulting to `"*"`. */
  function PipVersionText(spec: PipSpec): (t: string)
    ensures spec.PipTable? && spec.version.None? ==> t == "*"
  {
    match spec
    case PipString(s) => s
    case PipTable(v) => v.GetOr("*")
  }

  /** `str(v).strip().strip('"').strip("'")` */
  function CleanPipSpec(s: string): (t: string)
  {
    StripChar(StripChar(Strip(s), '"'), '\'')
  }

  /** `re.search(r"(\d+[0-9A-Za-z.*]*)", s)`: the maximal version run at the first digit. */
  function FirstDigitRun(s: string): (r: Option<string>)
    ensures r.Some? <==> exists k :: 0 <= k < |s| && IsDigit(s[k])
    ensures r.Some? ==> |r.value| > 0 && IsDigit(r.value[0]) && AllChars(r.value, IsVersionChar)
    ensures r.Some? ==> Contains(s, r.value)
  {
    var q := FirstWhere(s, IsDigit, 0);
    if q < |s| then
      var w := RunEnd(s, IsVersionChar, q);
      SliceContained(s, q, w);
      Some(s[q..w])
    else None
  }

  /** Whatever precedes the first digit is skipped, and the version run is taken whole. */
  lemma FirstDigitRunBuilt(prefix: string, version: string, rest: string)
    requires forall t :: 0 <= t < |prefix| ==> !IsDigit(prefix[t])
    requires |version| > 0 && IsDigit(version[0]) && AllChars(version, IsVersionChar)
    requires rest == [] || !IsVersionChar(rest[0])
    ensures FirstDigitRun(prefix + version + rest) == Some(version)
  {
    var s := prefix + version + rest;
    var q := |prefix|;
    var w := q + |version|;
    assert forall t :: 0 <= t < q ==> s[t] == prefix[t];
    assert forall t :: 0 <= t < |version| ==> s[q + t] == version[t];
    assert w < |s| ==> s[w] == rest[0];
    assert FirstWhere(s, IsDigit, 0) == q;
    RunEndOf(s, IsVersionChar, q, w);
    assert s[q..w] == version;
  }

  function PipDependency(e: PipEntry, path: string): (d: Option<Dependency>)
    ensures CleanPipSpec(PipVersionText(e.spec)) == "*" ==> d.None?
    ensures d.Some? ==> d.value.name == e.name && d.value.ecosystem == Python && d.value.manifestPath == path
    ensures d.Some? ==> Some(d.value.currentVersion) == FirstDigitRun(CleanPipSpec(PipVersionText(e.spec)))
  {
    var vs := CleanPipSpec(PipVersionText(e.spec));
    if vs == "*" then None
    else
      match FirstDigitRun(vs)
      case Some(v) => Some(Dependency(e.name, v, Python, path))
      case None => None
  }

  function PipDeps(entries: seq<PipEntry>, path: string): (deps: seq<Dependency>)
    ensures |deps| <= |entries|
  {
    if |entries| == 0 then []
    else
      var rest := PipDeps(entries[..|entries| - 1], path);
      match PipDependency(entries[|entries| - 1], path)
      case Some(d) => rest + [d]
      case None => rest
  }

  /** The entries of one Pipfile section, in order. */
  method ParsePipSection(entries: seq<PipEntry>, path: string) returns (deps: seq<Dependency>)
    ensures deps == PipDeps(entries, path)
  {
    deps := [];
    for i := 0 to |entries|
      invariant deps == PipDeps(entries[..i], path)
    {
      var versionSpec := CleanPipSpec(PipVersionText(entries[i].spec));
      if versionSpec != "*" {
        var m := FirstDigitRun(versionSpec);
        if m.Some? {
          assert PipDeps(entries[..i + 1], path) == deps + [Dependency(entries[i].name, m.value, Python, path)] by {
            PipStep(entries, path, i);
          }
          deps := deps + [Dependency(entries[i].name, m.value, Python, path)];
        } else {
          assert PipDeps(entries[..i + 1], path) == deps by {
            PipStep(entries, path, i);
          }
        }
      } else {
        assert PipDeps(entries[..i + 1], path) == deps by {
          PipStep(entries, path, i);
        }
      }
    }
    assert entries[..|entries|] == entries;
  }

  /** One more entry adds its dependency, when it has one, at the end. */
  lemma PipStep(entries: seq<PipEntry>, path: string, i: nat)
    requires i < |entries|
    ensures var d := PipDependency(entries[i], path);
      PipDeps(entries[..i + 1], path) == PipDeps(entries[..i], path) + (if d.Some? then [d.value] else [])
  {
    assert entries[..i + 1][..i] == entries[..i];
  }

  /** `_parse_pipfile`: `packages`, then `dev-packages`. */
  method ParsePipfile(data: PipfileData, path: string) returns (deps: seq<Dependency>)
    ensures deps == PipDeps(data.packages, path) + PipDeps(data.devPackages, path)
  {
    var main := ParsePipSection(data.packages, path);
    var dev := ParsePipSection(data.devPackages, path);
    deps := main + dev;
  }

  /** A table spec is read exactly as its `version` string would be. */
  lemma PipTableLikeString(name: string, v: string, path: string)
    ensures PipDependency(PipEntry(name, PipTable(Some(v))), path) ==
            PipDependency(PipEntry(name, PipString(v)), path)
  {
  }

  // ---------------------------------------------------------------------------
  // package.json
  // ---------------------------------------------------------------------------

  datatype NpmEntry = NpmEntry(name: string, spec: string)
  datatype PackageJsonData = PackageJsonData(dependencies: seq<NpmEntry>, devDependencies: seq<NpmEntry>)

  /** `[\^~>=<]` */
  predicate IsRangeChar(c: char) {
    c == '^' || c == '~' || c == '>' || c == '=' || c == '<'
  }

  /** `[A-Za-z0-9.]` */
  predicate IsPreChar(c: char) {
    IsAsciiAlnum(c) || c == '.'
  }

  /** The end of `\d+\.\d+\.\d+` starting at `b`, if it is there. */
  function CoreEnd(s: string, b: nat): (e: Option<nat>)
    requires b <= |s|
    ensures e.Some? ==> b < e.value <= |s| && IsDigit(s[b])
  {
    var d1 := RunEnd(s, IsDigit, b);
    if d1 == b || d1 == |s| || s[d1] != '.' then None
    else
      var d2 := RunEnd(s, IsDigit, d1 + 1);
      if d2 == d1 + 1 || d2 == |s| || s[d2] != '.' then None
      else
        var d3 := RunEnd(s, IsDigit, d2 + 1);
        if d3 == d2 + 1 then None else Some(d3)
  }

  /** `_NPM_VERSION_RE.match(s).group(1)`: after a run of range characters and spaces,
      `X.Y.Z` with an optional `-pre` tag. */
  function MatchNpmVersion(s: string): (r: Option<string>)
    ensures r.Some? ==> |r.value| > 0 && IsDigit(r.value[0]) && Contains(s, r.value)
  {
    var b := RunEnd(s, IsSpace, RunEnd(s, IsRangeChar, 0));
    match CoreEnd(s, b)
    case None => None
    case Some(e) =>
      var p := if e < |s| && s[e] == '-' then RunEnd(s, IsPreChar, e + 1) else e;
      var end := if p > e + 1 then p else e;
      SliceContained(s, b, end);
      Some(s[b..end])
  }

  lemma CoreAt(s: string, b: nat, d1: nat, d2: nat, d3: nat)
    requires b < d1 < |s| && s[d1] == '.' && RunEnd(s, IsDigit, b) == d1
    requires d1 + 1 < d2 < |s| && s[d2] == '.' && RunEnd(s, IsDigit, d1 + 1) == d2
    requires d2 + 1 < d3 && RunEnd(s, IsDigit, d2 + 1) == d3
    ensures CoreEnd(s, b) == Some(d3)
  {
  }

  /** A version that runs to the end of the text is taken whole. */
  lemma NpmAt(s: string, b: nat)
    requires b == RunEnd(s, IsSpace, RunEnd(s, IsRangeChar, 0))
    requires CoreEnd(s, b) == Some(|s|)
    ensures MatchNpmVersion(s) == Some(s[b..|s|])
  {
  }

  /** The match of a text of range characters up to `a` and digit groups ending at
      `d1`, `d2` and the end of the text. */
  lemma NpmVersionIn(s: string, a: nat, d1: nat, d2: nat, prefix: string, x: string, y: string, z: string)
    requires a < d1 && d1 + 1 < d2 && d2 + 1 < |s| && s[d1] == '.' && s[d2] == '.'
    requires s[..a] == prefix && s[a..d1] == x && s[d1 + 1..d2] == y && s[d2 + 1..] == z
    requires AllChars(prefix, IsRangeChar) && AllChars(x, IsDigit)
    requires AllChars(y, IsDigit) && AllChars(z, IsDigit)
    ensures MatchNpmVersion(s) == Some(s[a..|s|])
  {
    forall j | 0 <= j < a ensures IsRangeChar(s[j]) {
      assert s[..a][j] == s[j];
    }
    assert s[a..d1][0] == s[a];
    RunEndOf(s, IsRangeChar, 0, a);
    RunEndOf(s, IsSpace, a, a);
    forall j | a <= j < d1 ensures IsDigit(s[j]) {
      assert s[a..d1][j - a] == s[j];
    }
    RunEndOf(s, IsDigit, a, d1);
    forall j | d1 + 1 <= j < d2 ensures IsDigit(s[j]) {
      assert s[d1 + 1..d2][j - d1 - 1] == s[j];
    }
    RunEndOf(s, IsDigit, d1 + 1, d2);
    forall j | d2 + 1 <= j < |s| ensures IsDigit(s[j]) {
      assert s[d2 + 1..][j - d2 - 1] == s[j];
    }
    RunEndOf(s, IsDigit, d2 + 1, |s|);
    CoreAt(s, a, d1, d2, |s|);
    NpmAt(s, a);
  }

  /** A caret, tilde or comparison prefix is dropped and the plain version kept. */
  lemma NpmPrefixDropped(prefix: string, x: string, y: string, z: string)
    requires AllChars(prefix, IsRangeChar)
    requires |x| > 0 && |y| > 0 && |z| > 0
    requires AllChars(x, IsDigit) && AllChars(y, IsDigit) && AllChars(z, IsDigit)
    ensures MatchNpmVersion(prefix + x + "." + y + "." + z) == Some(x + "." + y + "." + z)
  {
    var s := prefix + x + "." + y + "." + z;
    var a := |prefix|;
    var d1 := a + |x|;
    var d2 := d1 + 1 + |y|;
    NpmParts(s, prefix, x, y, z);
    NpmVersionIn(s, a, d1, d2, prefix, x, y, z);
  }

  lemma NpmParts(s: string, prefix: string, x: string, y: string, z: string)
    requires s == prefix + x + "." + y + "." + z
    ensures var a, d1 := |prefix|, |prefix| + |x|;
      var d2 := d1 + 1 + |y|;
      |s| == d2 + 1 + |z| && s[..a] == prefix && s[a..d1] == x && s[d1] == '.' &&
      s[d1 + 1..d2] == y && s[d2] == '.' && s[d2 + 1..] == z && s[a..|s|] == x + "." + y + "." + z
  {
  }

  function NpmDependency(e: NpmEntry, path: string): (d: Option<Dependency>)
    ensures d.Some? ==> d.value.name == e.name && d.value.ecosystem == Nodejs && d.value.manifestPath == path
    ensures d.Some? <==> MatchNpmVersion(e.spec).Some?
  {
    match MatchNpmVersion(e.spec)
    case Some(v) => Some(Dependency(e.name, v, Nodejs, path))
    case None => None
  }

  function NpmDeps(entries: seq<NpmEntry>, path: string): (deps: seq<Dependency>)
    ensures |deps| <= |entries|
  {
    if |entries| == 0 then []
    else
      var rest := NpmDeps(entries[..|entries| - 1], path);
      match NpmDependency(entries[|entries| - 1], path)
      case Some(d) => rest + [d]
      case None => rest
  }

  method ParseNpmSection(entries: seq<NpmEntry>, path: string) returns (deps: seq<Dependency>)
    ensures deps == NpmDeps(entries, path)
  {
    deps := [];
    for i := 0 to |entries|
      invariant deps == NpmDeps(entries[..i], path)
    {
      assert entries[..i + 1][..i] == entries[..i];
      var m := MatchNpmVersion(entries[i].spec);
      if m.Some? {
        deps := deps + [Dependency(entries[i].name, m.value, Nodejs, path)];
      }
    }
    assert entries[..|entries|] == entries;
  }

  /** `_parse_package_json`: `dependencies`, then `devDependencies`. */
  method ParsePackageJson(data: PackageJsonData, path: string) returns (deps: seq<Dependency>)
    ensures deps == NpmDeps(data.dependencies, path) + NpmDeps(data.devDependencies, path)
  {
    var main := ParseNpmSection(data.dependencies, path);
    var dev := ParseNpmSection(data.devDependencies, path);
    deps := main + dev;
  }

  // ---------------------------------------------------------------------------
  // the project walk
  // ---------------------------------------------------------------------------

  /** A manifest's content as its decoder hands it over. */
  datatype Decoded =
    | TextContent(text: string)
    | TomlContent(project: Option<ProjectTable>, pipfile: PipfileData)
    | JsonContent(package: PackageJsonData)

  datatype File = File(name: string, content: Decoded)
  datatype Dir = Dir(name: string, files: seq<File>, subdirs: seq<Dir>)

  /** The parser `_PARSERS` chooses by file name; other files contribute nothing. */
  function ManifestDeps(f: File, path: string): (deps: seq<Dependency>)
    ensures f.name !in ManifestNames ==> deps == []
  {
    match f.content
    case TextContent(text) =>
      if f.name == "requirements.txt" then RequirementsDeps(Lines(text), path) else []
    case TomlContent(project, pipfile) =>
      if f.name == "pyproject.toml" then
        (if project.None? then [] else
           SpecDeps(project.value.dependencies + Flatten(project.value.optionalDependencies), path))
      else if f.name == "Pipfile" then PipDeps(pipfile.packages, path) + PipDeps(pipfile.devPackages, path)
      else []
    case JsonContent(package) =>
      if f.name == "package.json" then
        NpmDeps(package.dependencies, path) + NpmDeps(package.devDependencies, path)
      else []
  }

  function FilesDeps(files: seq<File>, dirpath: string): (deps: seq<Dependency>)
  {
    if |files| == 0 then []
    else FilesDeps(files[..|files| - 1], dirpath) +
         ManifestDeps(files[|files| - 1], dirpath + "/" + files[|files| - 1].name)
  }

  /** `root.walk()` top-down: a directory's own files, then each kept subdirectory in
      turn; directories named in the skip list are pruned before they are entered. */
  function WalkDeps(d: Dir, dirpath: string): (deps: seq<Dependency>)
    decreases d, 1
  {
    FilesDeps(d.files, dirpath) + SubdirsDeps(d, d.subdirs, dirpath)
  }

  function SubdirsDeps(parent: Dir, subs: seq<Dir>, dirpath: string): (deps: seq<Dependency>)
    requires forall s :: s in subs ==> s in parent.subdirs
    decreases parent, 0, |subs|
  {
    if |subs| == 0 then []
    else
      var rest := SubdirsDeps(parent, subs[..|subs| - 1], dirpath);
      var last := subs[|subs| - 1];
      assert last in subs;
      if last.name in SkipDirs then rest else rest + WalkDeps(last, dirpath + "/" + last.name)
  }

  /** Files that are not manifests, and directories that are pruned, add nothing. */
  lemma {:induction false} NonManifestsIgnored(files: seq<File>, dirpath: string)
    requires forall k :: 0 <= k < |files| ==> files[k].name !in ManifestNames
    ensures FilesDeps(files, dirpath) == []
    decreases |files|
  {
    if |files| > 0 {
      NonManifestsIgnored(files[..|files| - 1], dirpath);
    }
  }

  lemma {:induction false} SkippedDirsIgnored(parent: Dir, subs: seq<Dir>, dirpath: string)
    requires forall s :: s in subs ==> s in parent.subdirs
    requires forall k :: 0 <= k < |subs| ==> subs[k].name in SkipDirs
    ensures SubdirsDeps(parent, subs, dirpath) == []
    decreases |subs|
  {
    if |subs| > 0 {
      SkippedDirsIgnored(parent, subs[..|subs| - 1], dirpath);
    }
  }

  // ---------------------------------------------------------------------------
  // deduplication
  // ---------------------------------------------------------------------------

  function DepKey(d: Dependency): (string, string) {
    (Lower(d.name), d.currentVersion)
  }

  function KeySet(deps: seq<Dependency>): (ks: set<(string, string)>)
  {
    set d | d in deps :: DepKey(d)
  }

  lemma KeySetAppend(deps: seq<Dependency>, d: Dependency)
    ensures KeySet(deps + [d]) == KeySet(deps) + {DepKey(d)}
  {
    assert forall e :: e in deps + [d] <==> e in deps || e == d;
  }

  /** The first dependency of every key, in order. */
  function Dedup(deps: seq<Dependency>): (unique: seq<Dependency>)
    ensures |unique| <= |deps|
  {
    if |deps| == 0 then []
    else
      var init := deps[..|deps| - 1];
      var last := deps[|deps| - 1];
      if DepKey(last) in KeySet(init) then Dedup(init) else Dedup(init) + [last]
  }

  /** One more dependency: its key joins the seen set, and it is kept iff the key is new. */
  lemma DedupStep(all: seq<Dependency>, i: nat)
    requires i < |all|
    ensures KeySet(all[..i + 1]) == KeySet(all[..i]) + {DepKey(all[i])}
    ensures Dedup(all[..i + 1]) ==
            if DepKey(all[i]) in KeySet(all[..i]) then Dedup(all[..i]) else Dedup(all[..i]) + [all[i]]
  {
    assert all[..i + 1][..i] == all[..i];
    KeySetAppend(all[..i], all[i]);
    assert all[..i + 1] == all[..i] + [all[i]];
  }

  /** The `seen`/`unique` loop of `scan_project`. */
  method Deduplicate(all: seq<Dependency>) returns (unique: seq<Dependency>)
    ensures unique == Dedup(all)
  {
    var seen: set<(string, string)> := {};
    unique := [];
    for i := 0 to |all|
      invariant seen == KeySet(all[..i])
      invariant unique == Dedup(all[..i])
    {
      DedupStep(all, i);
      var key := (Lower(all[i].name), all[i].currentVersion);
      if key !in seen {
        seen := seen + {key};
        unique := unique + [all[i]];
      }
    }
    assert all[..|all|] == all;
  }

  /** `scan_project`: walk, parse, deduplicate. */
  method ScanProject(root: Dir, rootPath: string) returns (deps: seq<Dependency>)
    ensures deps == Dedup(WalkDeps(root, rootPath))
  {
    var all := WalkDeps(root, rootPath);
    deps := Deduplicate(all);
  }

  /** Deduplication keeps every key and keeps no key twice. */
  lemma {:induction false} DedupKeys(deps: seq<Dependency>)
    ensures KeySet(Dedup(deps)) == KeySet(deps)
    ensures forall j, k :: 0 <= j < k < |Dedup(deps)| ==> DepKey(Dedup(deps)[j]) != DepKey(Dedup(deps)[k])
    decreases |deps|
  {
    if |deps| > 0 {
      var init := deps[..|deps| - 1];
      var last := deps[|deps| - 1];
      DedupKeys(init);
      assert deps == init + [last];
      assert KeySet(deps) == KeySet(init) + {DepKey(last)};
      var u := Dedup(init);
      if DepKey(last) !in KeySet(init) {
        assert KeySet(u + [last]) == KeySet(u) + {DepKey(last)};
        forall j | 0 <= j < |u| ensures DepKey((u + [last])[j]) != DepKey(last) {
          assert (u + [last])[j] == u[j] && u[j] in u;
        }
      }
    }
  }

  /** Deduplication keeps the input's order: what it keeps is a subsequence of it. */
  lemma {:induction false} DedupSubsequence(deps: seq<Dependency>)
    ensures IsSubsequence(Dedup(deps), deps)
    decreases |deps|
  {
    if deps != [] {
      var init := deps[..|deps| - 1];
      var u := Dedup(init);
      DedupSubsequence(init);
      if DepKey(deps[|deps| - 1]) !in KeySet(init) {
        assert (u + [deps[|deps| - 1]])[..|u|] == u;
      }
    }
  }

  /** What deduplication keeps is the first dependency with its key. */
  lemma {:induction false} DedupKeepsFirst(deps: seq<Dependency>, j: nat)
    requires j < |Dedup(deps)|
    ensures exists i :: 0 <= i < |deps| && deps[i] == Dedup(deps)[j] &&
                        forall i' :: 0 <= i' < i ==> DepKey(deps[i']) != DepKey(deps[i])
    decreases |deps|
  {
    var n := |deps| - 1;
    var init := deps[..n];
    var last := deps[n];
    var u := Dedup(init);
    assert forall i :: 0 <= i < n ==> init[i] == deps[i];
    if j < |u| {
      assert Dedup(deps)[j] == u[j];
      DedupKeepsFirst(init, j);
      var i :| 0 <= i < n && init[i] == u[j] &&
               forall i' :: 0 <= i' < i ==> DepKey(init[i']) != DepKey(init[i]);
      assert deps[i] == u[j];
    } else {
      assert DepKey(last) !in KeySet(init) && Dedup(deps)[j] == last;
      forall i' | 0 <= i' < n ensures DepKey(deps[i']) != DepKey(last) {
        assert init[i'] in init;
      }
    }
  }
}
