/** Enums and records shared by the pipeline.  The enums carry their string values;
    the records that the analysis and report stages use are reconstructed from
    how those stages read them. */
module Schemas {
  import opened Wrappers

  datatype Ecosystem = Python | Nodejs {
    function Value(): (s: string)
      ensures |s| > 0
    {
      match this
      case Python => "python"
      case Nodejs => "nodejs"
    }
  }

  function EcosystemFromValue(s: string): (e: Option<Ecosystem>)
    ensures e.Some? ==> e.value.Value() == s
    ensures (exists x: Ecosystem :: x.Value() == s) ==> e.Some?
  {
    if s == "python" then Some(Python)
    else if s == "nodejs" then Some(Nodejs)
    else None
  }

  datatype Severity = Critical | Warning | Info {
    function Value(): (s: string)
      ensures |s| > 0
    {
      match this
      case Critical => "critical"
      case Warning => "warning"
      case Info => "info"
    }

    /** `severity.value.upper()` */
    function Upper(): (s: string)
      ensures |s| == |Value()|
    {
      match this
      case Critical => "CRITICAL"
      case Warning => "WARNING"
      case Info => "INFO"
    }
  }

  function SeverityFromValue(s: string): (v: Option<Severity>)
    ensures v.Some? ==> v.value.Value() == s
    ensures (exists x: Severity :: x.Value() == s) ==> v.Some?
  {
    if s == "critical" then Some(Critical)
    else if s == "warning" then Some(Warning)
    else if s == "info" then Some(Info)
    else None
  }

  datatype ChangeType = Removed | Renamed | SignatureChanged | BehaviorChanged {
    function Value(): (s: string)
      ensures |s| > 0
    {
      match this
      case Removed => "removed"
      case Renamed => "renamed"
      case SignatureChanged => "signature_changed"
      case BehaviorChanged => "behavior_changed"
    }
  }

  function ChangeTypeFromValue(s: string): (c: Option<ChangeType>)
    ensures c.Some? ==> c.value.Value() == s
    ensures (exists x: ChangeType :: x.Value() == s) ==> c.Some?
  {
    if s == "removed" then Some(Removed)
    else if s == "renamed" then Some(Renamed)
    else if s == "signature_changed" then Some(SignatureChanged)
    else if s == "behavior_changed" then Some(BehaviorChanged)
    else None
  }

  /** Validation of a change type coming from a model response: a known value is
      kept, anything else becomes `behavior_changed`. */
  function CoerceChangeType(s: string): (c: ChangeType)
    ensures (exists x: ChangeType :: x.Value() == s) ==> c.Value() == s
    ensures (forall x: ChangeType :: x.Value() != s) ==> c == BehaviorChanged
  {
    ChangeTypeFromValue(s).GetOr(BehaviorChanged)
  }

  /** Each value string names exactly one member. */
  lemma EnumValuesInjective()
    ensures forall a: Ecosystem, b: Ecosystem :: a.Value() == b.Value() ==> a == b
    ensures forall a: Severity, b: Severity :: a.Value() == b.Value() ==> a == b
    ensures forall a: ChangeType, b: ChangeType :: a.Value() == b.Value() ==> a == b
  {
  }

  datatype Dependency = Dependency(
    name: string,
    currentVersion: string,
    ecosystem: Ecosystem,
    manifestPath: string)

  datatype RegistryInfo = RegistryInfo(
    name: string,
    latestVersion: string,
    homepageUrl: Option<string>,
    repositoryUrl: Option<string>,
    changelogUrl: Option<string>)

  /** `RegistryInfo(name=..., latest_version=...)`: the URL fields default to `None`. */
  function DefaultRegistryInfo(name: string, latest: string): (r: RegistryInfo)
    ensures r.name == name && r.latestVersion == latest
    ensures r.homepageUrl.None? && r.repositoryUrl.None? && r.changelogUrl.None?
  {
    RegistryInfo(name, latest, None, None, None)
  }

  datatype OutdatedDependency = OutdatedDependency(
    name: string,
    currentVersion: string,
    latestVersion: string,
    ecosystem: Ecosystem,
    manifestPath: string,
    homepageUrl: Option<string>,
    repositoryUrl: Option<string>,
    changelogUrl: Option<string>)

  /** An outdated dependency is the dependency's fields plus the registry's latest
      version and URLs. */
  function MakeOutdated(d: Dependency, info: RegistryInfo): (o: OutdatedDependency)
    ensures o.name == d.name && o.currentVersion == d.currentVersion
    ensures o.ecosystem == d.ecosystem && o.manifestPath == d.manifestPath
    ensures o.latestVersion == info.latestVersion
    ensures o.homepageUrl == info.homepageUrl
    ensures o.repositoryUrl == info.repositoryUrl && o.changelogUrl == info.changelogUrl
  {
    OutdatedDependency(d.name, d.currentVersion, info.latestVersion, d.ecosystem,
      d.manifestPath, info.homepageUrl, info.repositoryUrl, info.changelogUrl)
  }

  /** The `model_dump()` of a dependency: field name to value. */
  function DumpDependency(d: Dependency): (m: map<string, string>)
    ensures m.Keys == {"name", "current_version", "ecosystem", "manifest_path"}
  {
    map["name" := d.name, "current_version" := d.currentVersion,
        "ecosystem" := d.ecosystem.Value(), "manifest_path" := d.manifestPath]
  }

  /** `Dependency.model_validate`: every field present and the ecosystem a known value. */
  function ValidateDependency(m: map<string, string>): (r: Option<Dependency>)
    ensures r.Some? <==> ("name" in m && "current_version" in m && "manifest_path" in m &&
                          "ecosystem" in m && EcosystemFromValue(m["ecosystem"]).Some?)
  {
    if "name" in m && "current_version" in m && "ecosystem" in m && "manifest_path" in m then
      match EcosystemFromValue(m["ecosystem"])
      case Some(e) => Some(Dependency(m["name"], m["current_version"], e, m["manifest_path"]))
      case None => None
    else None
  }

  /** Dumping a dependency and validating the dump gives back an equal dependency. */
  lemma DependencyRoundTrip(d: Dependency)
    ensures ValidateDependency(DumpDependency(d)) == Some(d)
  {
    var m := DumpDependency(d);
    assert EcosystemFromValue(d.ecosystem.Value()) == Some(d.ecosystem);
  }

  datatype BreakingChange = BreakingChange(
    apiName: string,
    changeType: ChangeType,
    description: string,
    migrationHint: string)

  datatype CodeUsage = CodeUsage(
    filePath: string,
    lineNumber: int,
    usageType: string,
    symbol: string,
    codeSnippet: string)

  datatype ImpactItem = ImpactItem(
    breakingChange: string,
    affectedUsages: seq<string>,
    severity: Severity,
    explanation: string,
    suggestedFix: string)

  datatype ImpactAssessment = ImpactAssessment(
    depName: string,
    versions: map<string, string>,
    impacts: seq<ImpactItem>,
    summary: string,
    overallSeverity: Severity,
    warnings: seq<string>)

  datatype PatchSuggestion = PatchSuggestion(
    filePath: string,
    originalCode: string,
    patchedCode: string,
    explanation: string)

  datatype PatchSet = PatchSet(
    depName: string,
    patches: seq<PatchSuggestion>,
    unifiedDiff: string)

  datatype AnalysisReport = AnalysisReport(
    projectPath: string,
    timestamp: string,
    totalDependencies: nat,
    outdatedCount: nat,
    criticalCount: nat,
    assessments: seq<ImpactAssessment>,
    patches: seq<PatchSet>,
    errors: seq<string>)

  datatype ChangelogAnalysis = ChangelogAnalysis(
    breakingChanges: seq<BreakingChange>,
    deprecations: seq<string>,
    newFeatures: seq<string>,
    confidence: real)

  datatype RagQueryResult = RagQueryResult(
    breakingChanges: seq<BreakingChange>,
    confidence: real,
    sourceChunks: seq<string>)

  /** Construction of a changelog analysis: the confidence must lie in [0, 1]. */
  function MakeChangelogAnalysis(bcs: seq<BreakingChange>, deps: seq<string>, feats: seq<string>,
                                 confidence: real): (r: Option<ChangelogAnalysis>)
    ensures r.Some? <==> 0.0 <= confidence <= 1.0
    ensures r.Some? ==> r.value == ChangelogAnalysis(bcs, deps, feats, confidence)
  {
    if 0.0 <= confidence <= 1.0 then Some(ChangelogAnalysis(bcs, deps, feats, confidence)) else None
  }

  /** `versions.get(key, "?")` */
  function VersionOr(versions: map<string, string>, key: string): (s: string)
    ensures key in versions ==> s == versions[key]
    ensures key !in versions ==> s == "?"
  {
    if key in versions then versions[key] else "?"
  }
}
