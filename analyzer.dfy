/** The per-dependency worker and the parent graph's own nodes.  Each worker node is a
    pure function from the worker state (and the answer of the service it calls) to a
    command: the node to go to next and a partial update.  The graph runtime merges each
    update into the state and moves on; here that runtime is the class `Worker`, whose
    `Step` runs one node and whose `Run` steps until the end.  The embed node runs this
    model's chunker and range filter; the changelog fetcher, the embedding function, the
    vector-store query, the code search and the impact assessor are the services the
    worker is given. */
module Analyzer {
  import opened Wrappers
  import opened Schemas
  import Changelog
  import Rag
  import Versions

  /** How many times a low-confidence answer may send the worker back to the store. */
  const MaxRagRetries: int := 3

  /** The default of the `confidence_threshold` setting. */
  const DefaultConfidenceThreshold: real := 0.6

  // ---------------------------------------------------------------------------
  // the worker state and the updates the nodes return
  // ---------------------------------------------------------------------------

  /** The worker's nodes, the end, and `Raised`: a node raised, and the worker stops in
      the state it had before that node. */
  datatype Node = FetchChangelog | EmbedChangelog | RagAnalyze | RefineQuery | ParseCode | AssessImpact | End | Raised

  /** The worker has stopped: it reached the end or a node raised. */
  predicate Done(n: Node) {
    n == End || n == Raised
  }

  /** The per-dependency state.  URLs are `""` when absent. */
  datatype DepState = DepState(
    depName: string,
    currentVersion: string,
    latestVersion: string,
    projectPath: string,
    changelogUrl: string,
    repositoryUrl: string,
    changelog: string,
    ragResults: seq<BreakingChange>,
    ragConfidence: real,
    retryCount: int,
    codeUsages: seq<CodeUsage>,
    impactAssessments: seq<ImpactAssessment>,
    warnings: seq<string>)

  /** The keys an update dict carries; an absent key is `None`.  `warnings` and
      `impactAssessments` are list fields whose updates are appended, the others are
      replaced. */
  datatype Update = Update(
    changelog: Option<string>,
    ragResults: Option<seq<BreakingChange>>,
    ragConfidence: Option<real>,
    retryCount: Option<int>,
    codeUsages: Option<seq<CodeUsage>>,
    impactAssessments: Option<seq<ImpactAssessment>>,
    warnings: Option<seq<string>>)

  const Empty: Update := Update(None, None, None, None, None, None, None)

  datatype Command = Command(goto: Node, update: Update)

  function Replace<T>(prior: T, u: Option<T>): T {
    if u.Some? then u.value else prior
  }

  function Append<T>(prior: seq<T>, u: Option<seq<T>>): seq<T> {
    if u.Some? then prior + u.value else prior
  }

  /** The graph's merge of an update into the state. */
  function Merge(s: DepState, u: Update): (t: DepState)
    ensures t.depName == s.depName && t.currentVersion == s.currentVersion
    ensures t.latestVersion == s.latestVersion && t.projectPath == s.projectPath
    ensures t.changelogUrl == s.changelogUrl && t.repositoryUrl == s.repositoryUrl
    ensures u == Empty ==> t == s
    ensures t.retryCount == Replace(s.retryCount, u.retryCount)
    ensures |s.warnings| <= |t.warnings| && t.warnings[..|s.warnings|] == s.warnings
    ensures |s.impactAssessments| <= |t.impactAssessments|
    ensures t.impactAssessments[..|s.impactAssessments|] == s.impactAssessments
  {
    s.(changelog := Replace(s.changelog, u.changelog),
       ragResults := Replace(s.ragResults, u.ragResults),
       ragConfidence := Replace(s.ragConfidence, u.ragConfidence),
       retryCount := Replace(s.retryCount, u.retryCount),
       codeUsages := Replace(s.codeUsages, u.codeUsages),
       impactAssessments := Append(s.impactAssessments, u.impactAssessments),
       warnings := Append(s.warnings, u.warnings))
  }

  /** `x or None`: the empty URL means no URL. */
  function UrlOrNone(url: string): (r: Option<string>)
    ensures r.None? <==> url == ""
    ensures r.Some? ==> r.value == url
  {
    if url == "" then None else Some(url)
  }

  /** `x or ""`: no URL is stored as the empty URL. */
  function UrlOrEmpty(url: Option<string>): (r: string)
    ensures url.None? ==> r == ""
    ensures url.Some? ==> r == url.value
  {
    if url.Some? then url.value else ""
  }

  /** A URL stored by the scan comes back unchanged to the fetcher, except that an empty
      URL comes back as none. */
  lemma UrlRoundTrip(url: Option<string>)
    ensures UrlOrNone(UrlOrEmpty(url)) == (if url == Some("") then None else url)
  {
  }

  /** An update that carries the warnings key only when there are warnings. */
  function WarningsUpdate(ws: seq<string>): (u: Option<seq<string>>)
    ensures u.Some? <==> ws != []
    ensures u.Some? ==> u.value == ws
  {
    if ws != [] then Some(ws) else None
  }

  // ---------------------------------------------------------------------------
  // the worker nodes
  // ---------------------------------------------------------------------------

  /** `fetch_changelog_node`, given the fetcher's text and warnings. */
  function FetchNode(text: string, ws: seq<string>): (c: Command)
    ensures c.goto == EmbedChangelog
    ensures c.update.changelog == Some(text)
    ensures c.update.warnings.Some? <==> ws != []
    ensures forall s :: Merge(s, c.update).changelog == text && Merge(s, c.update).warnings == s.warnings + ws
  {
    Command(EmbedChangelog, Empty.(changelog := Some(text), warnings := WarningsUpdate(ws)))
  }

  function NoHeadersWarning(dep: string): (w: string) {
    "No parseable version headers found in " + dep + " changelog"
  }

  function NoEntriesWarning(dep: string, current: string, latest: string): (w: string) {
    "No changelog entries found for " + dep + " between " + current + " and " + latest
  }

  /** The warnings of `embed_changelog_node`: one when the changelog has no version
      sections, one when none of them is in range, none otherwise. */
  function EmbedWarnings(dep: string, current: string, latest: string,
                         chunks: seq<Changelog.Chunk>, filtered: seq<Changelog.Chunk>): (ws: seq<string>)
    ensures ws == [] <==> chunks != [] && filtered != []
    ensures chunks == [] ==> ws == [NoHeadersWarning(dep)]
    ensures chunks != [] && filtered == [] ==> ws == [NoEntriesWarning(dep, current, latest)]
  {
    if chunks == [] then [NoHeadersWarning(dep)]
    else if filtered == [] then [NoEntriesWarning(dep, current, latest)]
    else []
  }

  /** What is handed to the store: the range-filtered sections, or nothing when there
      were no sections to filter. */
  function EmbedInput(chunks: seq<Changelog.Chunk>, filtered: seq<Changelog.Chunk>): (r: seq<Changelog.Chunk>)
    ensures r == [] <==> chunks == [] || filtered == []
    ensures chunks != [] ==> r == filtered
  {
    if chunks == [] then chunks else filtered
  }

  /** `embed_changelog_node`, given the chunker's sections and the range filter's result. */
  function EmbedNode(s: DepState, chunks: seq<Changelog.Chunk>, filtered: seq<Changelog.Chunk>): (c: Command)
    ensures c.goto == RagAnalyze
    ensures c.update.warnings.Some? <==> chunks == [] || filtered == []
    ensures Merge(s, c.update).warnings ==
      s.warnings + EmbedWarnings(s.depName, s.currentVersion, s.latestVersion, chunks, filtered)
    ensures Merge(s, c.update).(warnings := s.warnings) == s
  {
    var ws := EmbedWarnings(s.depName, s.currentVersion, s.latestVersion, chunks, filtered);
    Command(RagAnalyze, Empty.(warnings := WarningsUpdate(ws)))
  }

  function QueryText(s: DepState): (q: string) {
    "breaking changes in " + s.depName + " between " + s.currentVersion + " and " + s.latestVersion
  }

  /** `rag_analyze_node`, given the query's answer (`None` when the query raised).  A
      failed query goes on to the code search with no results and zero confidence; an
      answer goes back for another try iff its confidence is under the threshold and
      retries are left. */
  function RagNode(s: DepState, answer: Option<RagQueryResult>, threshold: real): (c: Command)
    ensures c.goto == RefineQuery <==>
      answer.Some? && answer.value.confidence < threshold && s.retryCount < MaxRagRetries
    ensures c.goto != RefineQuery ==> c.goto == ParseCode
    ensures answer.None? ==> c.update.ragResults == Some([]) && c.update.ragConfidence == Some(0.0)
    ensures answer.Some? ==> c.update.ragResults == Some(answer.value.breakingChanges) &&
                             c.update.ragConfidence == Some(answer.value.confidence)
    ensures c.update.(ragResults := None, ragConfidence := None) == Empty
  {
    match answer
    case None => Command(ParseCode, Empty.(ragResults := Some([]), ragConfidence := Some(0.0)))
    case Some(r) =>
      var u := Empty.(ragResults := Some(r.breakingChanges), ragConfidence := Some(r.confidence));
      if r.confidence < threshold && s.retryCount < MaxRagRetries then Command(RefineQuery, u)
      else Command(ParseCode, u)
  }

  /** `refine_query_node`: one more retry, then back to the store. */
  function RefineNode(s: DepState): (c: Command)
    ensures c.goto == RagAnalyze
    ensures Merge(s, c.update) == s.(retryCount := s.retryCount + 1)
  {
    Command(RagAnalyze, Empty.(retryCount := Some(s.retryCount + 1)))
  }

  /** `parse_code_node`, given the usages the code search found. */
  function ParseNode(usages: seq<CodeUsage>): (c: Command)
    ensures c.goto == AssessImpact
    ensures forall s :: Merge(s, c.update) == s.(codeUsages := usages)
  {
    Command(AssessImpact, Empty.(codeUsages := Some(usages)))
  }

  function NoUsagesWarning(dep: string): (w: string) {
    "No usages of " + dep + " found in project code"
  }

  /** The warnings the assessment carries: the state's, then the no-usage warning iff
      no usage was found. */
  function AssessmentWarnings(s: DepState): (ws: seq<string>)
    ensures |ws| == |s.warnings| + (if s.codeUsages == [] then 1 else 0)
    ensures ws[..|s.warnings|] == s.warnings
    ensures s.codeUsages == [] ==> ws[|s.warnings|] == NoUsagesWarning(s.depName)
  {
    s.warnings + (if s.codeUsages == [] then [NoUsagesWarning(s.depName)] else [])
  }

  /** `assess_impact_node`, given the assessor's answer: exactly one assessment, whose
      warnings are replaced by the worker's, and the end of the worker. */
  function AssessNode(s: DepState, a: ImpactAssessment): (c: Command)
    ensures c.goto == End
    ensures c.update.impactAssessments == Some([a.(warnings := AssessmentWarnings(s))])
    ensures Merge(s, c.update) == s.(impactAssessments := s.impactAssessments + [a.(warnings := AssessmentWarnings(s))])
  {
    Command(End, Empty.(impactAssessments := Some([a.(warnings := AssessmentWarnings(s))])))
  }

  // ---------------------------------------------------------------------------
  // the worker's services and its whole run, as values
  // ---------------------------------------------------------------------------

  /** The services a worker calls.  `embed` is `get_embedding` and `assess` is
      `assess_impact`; like `query`, each answers `None` when the call raises. */
  datatype Services = Services(
    fetch: (Option<string>, Option<string>, string) -> (string, seq<string>),
    embed: string -> Option<seq<real>>,
    query: (map<string, Rag.Entry>, string, string) -> Option<RagQueryResult>,
    findUsages: (string, string) -> seq<CodeUsage>,
    assess: (string, string, string, seq<BreakingChange>, seq<CodeUsage>) -> Option<ImpactAssessment>,
    threshold: real)

  /** The worker between two nodes: the node to run, the state, the store's entries and
      the number of store queries made so far. */
  datatype Config = Config(node: Node, state: DepState, entries: map<string, Rag.Entry>, queries: nat)

  /** The range filter as the embed node calls it: only when the chunker found sections.
      It raises when a bound is not a release version. */
  function EmbedFilter(s: DepState): (r: Result<seq<Changelog.Chunk>, string>)
  {
    var chunks := Changelog.Chunks(s.changelog);
    if chunks == [] then Success([]) else Changelog.FilterOutcome(chunks, s.currentVersion, s.latestVersion)
  }

  /** The range filter raises exactly when the changelog has sections and one of the two
      versions is not a release version. */
  lemma EmbedRaises(s: DepState)
    ensures EmbedFilter(s).Failure? <==>
      Changelog.Chunks(s.changelog) != [] &&
      (Versions.ParseRelease(s.currentVersion).None? || Versions.ParseRelease(s.latestVersion).None?)
  {
  }

  /** The sections the embed node hands to the store. */
  function Embedded(s: DepState): (r: seq<Changelog.Chunk>)
    requires EmbedFilter(s).Success?
  {
    EmbedInput(Changelog.Chunks(s.changelog), EmbedFilter(s).value)
  }

  /** The embedding call raises on some slice of the sections. */
  predicate EmbeddingFails(chunks: seq<Changelog.Chunk>, embed: string -> Option<seq<real>>) {
    exists ci, idx :: 0 <= ci < |chunks| && 0 <= idx < |Rag.SubContents(chunks[ci].content)| &&
      embed(Rag.SubContents(chunks[ci].content)[idx]).None?
  }

  /** The vectors the store receives once no embedding call raises. */
  function Vectors(embed: string -> Option<seq<real>>): (f: string -> seq<real>)
    ensures forall t :: embed(t).Some? ==> f(t) == embed(t).value
  {
    t => if embed(t).Some? then embed(t).value else []
  }

  /** The embed node raises: the range filter does, or the embedding of a slice does. */
  predicate EmbedFails(s: DepState, svc: Services) {
    EmbedFilter(s).Failure? || EmbeddingFails(Embedded(s), svc.embed)
  }

  /** The assessor's answer for the state. */
  function Assessed(s: DepState, svc: Services): (a: Option<ImpactAssessment>) {
    svc.assess(s.depName, s.currentVersion, s.latestVersion, s.ragResults, s.codeUsages)
  }

  /** The current node raises: the embed node as above, or the assess node when the
      assessor does.  The failure of a query is caught by the analyze node. */
  predicate Raises(c: Config, svc: Services) {
    (c.node == EmbedChangelog && EmbedFails(c.state, svc)) ||
    (c.node == AssessImpact && Assessed(c.state, svc).None?)
  }

  /** The command the current node returns when it does not raise. */
  function NodeCommand(c: Config, svc: Services): (cmd: Command)
    requires !Done(c.node) && !Raises(c, svc)
  {
    var s := c.state;
    match c.node
    case FetchChangelog =>
      var (text, ws) := svc.fetch(UrlOrNone(s.changelogUrl), UrlOrNone(s.repositoryUrl), s.depName);
      FetchNode(text, ws)
    case EmbedChangelog => EmbedNode(s, Changelog.Chunks(s.changelog), EmbedFilter(s).value)
    case RagAnalyze => RagNode(s, svc.query(c.entries, QueryText(s), s.depName), svc.threshold)
    case RefineQuery => RefineNode(s)
    case ParseCode => ParseNode(svc.findUsages(s.projectPath, s.depName))
    case AssessImpact => AssessNode(s, Assessed(s, svc).value)
  }

  /** One step of the runtime: run the node, merge its update, go where it says.  A node
      that raises stops the worker and changes nothing.  Only the embed node changes the
      store and only the analyze node queries it. */
  function Transition(c: Config, svc: Services): (d: Config)
    requires !Done(c.node)
    ensures d.node == Raised <==> Raises(c, svc)
    ensures Raises(c, svc) ==> d == c.(node := Raised)
    ensures d.queries == if c.node == RagAnalyze then c.queries + 1 else c.queries
    ensures c.node != EmbedChangelog ==> d.entries == c.entries
  {
    if Raises(c, svc) then c.(node := Raised)
    else
      var cmd := NodeCommand(c, svc);
      var entries := if c.node == EmbedChangelog then Rag.PutChunks(c.entries, c.state.depName, Embedded(c.state), Vectors(svc.embed))
                     else c.entries;
      Config(cmd.goto, Merge(c.state, cmd.update), entries, if c.node == RagAnalyze then c.queries + 1 else c.queries)
  }

  /** The retries still open. */
  function RetriesLeft(retryCount: int): (n: nat) {
    if retryCount < MaxRagRetries then MaxRagRetries - retryCount else 0
  }

  /** The number of steps left at most: each step lowers it, a retry lowering the retries
      left. */
  function Potential(node: Node, retryCount: int): (n: nat)
    ensures Done(node) <==> n == 0
  {
    var r := RetriesLeft(retryCount);
    match node
    case FetchChangelog => 5 + 2 * r
    case EmbedChangelog => 4 + 2 * r
    case RagAnalyze => 3 + 2 * r
    case RefineQuery => 4 + 2 * RetriesLeft(retryCount + 1)
    case ParseCode => 2
    case AssessImpact => 1
    case End => 0
    case Raised => 0
  }

  lemma TransitionDecreases(c: Config, svc: Services)
    requires !Done(c.node)
    ensures Potential(Transition(c, svc).node, Transition(c, svc).state.retryCount) < Potential(c.node, c.state.retryCount)
  {
    if Raises(c, svc) {
      return;
    }
    var cmd := NodeCommand(c, svc);
    if c.node == RefineQuery {
      assert cmd.update.retryCount == Some(c.state.retryCount + 1);
    } else {
      assert cmd.update.retryCount.None?;
    }
  }

  /** The configuration the worker ends in. */
  function Final(c: Config, svc: Services): (d: Config)
    ensures Done(d.node)
    decreases Potential(c.node, c.state.retryCount)
  {
    if Done(c.node) then c
    else
      TransitionDecreases(c, svc);
      Final(Transition(c, svc), svc)
  }

  // ---------------------------------------------------------------------------
  // properties of the run
  // ---------------------------------------------------------------------------

  /** The warnings only grow: whatever a node reports is kept. */
  lemma {:induction false} WarningsKept(c: Config, svc: Services)
    ensures var w := Final(c, svc).state.warnings;
      |c.state.warnings| <= |w| && w[..|c.state.warnings|] == c.state.warnings
    decreases Potential(c.node, c.state.retryCount)
  {
    if !Done(c.node) {
      var d := Transition(c, svc);
      TransitionDecreases(c, svc);
      WarningsKept(d, svc);
      var w := Final(d, svc).state.warnings;
      assert w[..|c.state.warnings|] == w[..|d.state.warnings|][..|c.state.warnings|];
    }
  }

  /** A run that has not stopped adds exactly one assessment when it reaches the end,
      and none when a node raises. */
  lemma {:induction false} OneAssessment(c: Config, svc: Services)
    requires !Done(c.node)
    ensures Final(c, svc).node == End ==>
      |Final(c, svc).state.impactAssessments| == |c.state.impactAssessments| + 1 &&
      Final(c, svc).state.impactAssessments[..|c.state.impactAssessments|] == c.state.impactAssessments
    ensures Final(c, svc).node == Raised ==> Final(c, svc).state.impactAssessments == c.state.impactAssessments
    decreases Potential(c.node, c.state.retryCount)
  {
    var d := Transition(c, svc);
    TransitionDecreases(c, svc);
    if Raises(c, svc) || c.node == AssessImpact {
      assert Final(c, svc) == d;
    } else {
      assert d.state.impactAssessments == c.state.impactAssessments;
      OneAssessment(d, svc);
    }
  }

  /** From the code search on, the store is not queried again. */
  lemma NoQueriesAfterSearch(c: Config, svc: Services)
    requires c.node == ParseCode || c.node == AssessImpact
    ensures Final(c, svc).queries == c.queries
  {
    if c.node == ParseCode {
      var d := Transition(c, svc);
      assert d.node == AssessImpact;
      assert Final(c, svc) == Final(d, svc);
    }
  }

  /** The analyze/refine loop queries the store at least once and at most once per
      retry left plus one. */
  lemma {:induction false} RagLoopBounds(c: Config, svc: Services)
    requires c.node == RagAnalyze || c.node == RefineQuery
    ensures var q := Final(c, svc).queries - c.queries;
      (c.node == RagAnalyze ==> 1 <= q <= RetriesLeft(c.state.retryCount) + 1) &&
      (c.node == RefineQuery ==> 1 <= q <= RetriesLeft(c.state.retryCount + 1) + 1)
    decreases Potential(c.node, c.state.retryCount)
  {
    var d := Transition(c, svc);
    TransitionDecreases(c, svc);
    if d.node == ParseCode {
      NoQueriesAfterSearch(d, svc);
    } else {
      RagLoopBounds(d, svc);
    }
  }

  /** The configuration after the fetch node of a fresh worker. */
  function Fetched(c: Config, svc: Services): (d: Config)
    requires c.node == FetchChangelog
    ensures d.node == EmbedChangelog && d.queries == c.queries && d.entries == c.entries
    ensures d.state.currentVersion == c.state.currentVersion && d.state.latestVersion == c.state.latestVersion
    ensures d.state.retryCount == c.state.retryCount
    ensures d.state.changelog ==
      svc.fetch(UrlOrNone(c.state.changelogUrl), UrlOrNone(c.state.repositoryUrl), c.state.depName).0
  {
    Transition(c, svc)
  }

  /** From the analyze/refine loop on, the only node that can raise is the assess node:
      the run ends at the end exactly when the assessor answers for the state it ends in. */
  lemma {:induction false} RagLoopEnds(c: Config, svc: Services)
    requires c.node in {RagAnalyze, RefineQuery, ParseCode, AssessImpact}
    ensures Final(c, svc).node == End <==> Assessed(Final(c, svc).state, svc).Some?
    decreases Potential(c.node, c.state.retryCount)
  {
    var d := Transition(c, svc);
    TransitionDecreases(c, svc);
    if c.node == AssessImpact {
      assert Final(c, svc) == d;
      if !Raises(c, svc) {
        assert d.state == c.state.(impactAssessments := d.state.impactAssessments);
      }
    } else {
      assert !Raises(c, svc);
      assert Final(c, svc) == Final(d, svc);
      RagLoopEnds(d, svc);
    }
  }

  /** Where a worker at the fetch node raises: with no query made exactly when the embed
      node raises on the fetched text, and after a query exactly when it does not and the
      assessor raises. */
  lemma RaiseSites(c: Config, svc: Services)
    requires c.node == FetchChangelog
    ensures Final(c, svc).node == Raised && Final(c, svc).queries == c.queries <==>
      EmbedFails(Fetched(c, svc).state, svc)
    ensures Final(c, svc).node == Raised && Final(c, svc).queries != c.queries <==>
      !EmbedFails(Fetched(c, svc).state, svc) && Assessed(Final(c, svc).state, svc).None?
  {
    var d := Fetched(c, svc);
    assert Final(c, svc) == Final(d, svc);
    if !Raises(d, svc) {
      var e := Transition(d, svc);
      assert e.node == RagAnalyze && e.queries == c.queries;
      assert Final(c, svc) == Final(e, svc);
      RagLoopEnds(e, svc);
      RagLoopBounds(e, svc);
    }
  }

  /** A fresh worker queries the store not at all when the embed node raises, and
      otherwise between one and `MaxRagRetries + 1` times, whether it then reaches the
      end or the assessor raises. */
  lemma QueryBounds(c: Config, svc: Services)
    requires c.node == FetchChangelog && c.state.retryCount == 0
    ensures EmbedFails(Fetched(c, svc).state, svc) ==>
      Final(c, svc).node == Raised && Final(c, svc).queries == c.queries
    ensures !EmbedFails(Fetched(c, svc).state, svc) ==>
      1 <= Final(c, svc).queries - c.queries <= MaxRagRetries + 1
    ensures Final(c, svc).node == End ==> 1 <= Final(c, svc).queries - c.queries <= MaxRagRetries + 1
  {
    RaiseSites(c, svc);
    var d := Fetched(c, svc);
    if !Raises(d, svc) {
      var e := Transition(d, svc);
      assert e.node == RagAnalyze && e.queries == c.queries && e.state.retryCount == 0;
      assert Final(c, svc) == Final(e, svc);
      RagLoopBounds(e, svc);
    }
  }

  /** The store always answers, never with enough confidence. */
  ghost predicate AlwaysUnsure(svc: Services) {
    forall m, q, dep :: svc.query(m, q, dep).Some? && svc.query(m, q, dep).value.confidence < svc.threshold
  }

  /** Under answers that are never confident enough the loop uses every retry: the store
      is queried once per retry left plus once more. */
  lemma {:induction false} UnsureUsesEveryRetry(c: Config, svc: Services)
    requires AlwaysUnsure(svc)
    requires c.node == RagAnalyze || c.node == RefineQuery
    ensures c.node == RagAnalyze ==> Final(c, svc).queries - c.queries == RetriesLeft(c.state.retryCount) + 1
    ensures c.node == RefineQuery ==> Final(c, svc).queries - c.queries == RetriesLeft(c.state.retryCount + 1) + 1
    decreases Potential(c.node, c.state.retryCount)
  {
    var d := Transition(c, svc);
    TransitionDecreases(c, svc);
    if d.node == ParseCode {
      NoQueriesAfterSearch(d, svc);
    } else {
      UnsureUsesEveryRetry(d, svc);
    }
  }

  /** A fresh worker facing answers that are never confident enough makes exactly
      `MaxRagRetries + 1` queries once its embed node has not raised. */
  lemma UnsureFreshWorker(c: Config, svc: Services)
    requires AlwaysUnsure(svc)
    requires c.node == FetchChangelog && c.state.retryCount == 0
    ensures !EmbedFails(Fetched(c, svc).state, svc) ==> Final(c, svc).queries - c.queries == MaxRagRetries + 1
    ensures Final(c, svc).node == End ==> Final(c, svc).queries - c.queries == MaxRagRetries + 1
  {
    RaiseSites(c, svc);
    var d := Fetched(c, svc);
    assert Final(c, svc) == Final(d, svc);
    if !Raises(d, svc) {
      var e := Transition(d, svc);
      assert e.node == RagAnalyze && e.queries == c.queries && e.state.retryCount == 0;
      assert Final(c, svc) == Final(e, svc);
      UnsureUsesEveryRetry(e, svc);
    }
  }

  /** A query that raises ends the loop at once: one query, no results, zero confidence. */
  lemma FailedQueryMovesOn(c: Config, svc: Services)
    requires c.node == RagAnalyze
    requires svc.query(c.entries, QueryText(c.state), c.state.depName).None?
    ensures var d := Transition(c, svc);
      d.node == ParseCode && d.queries == c.queries + 1 &&
      d.state.ragResults == [] && d.state.ragConfidence == 0.0
  {
  }

  // ---------------------------------------------------------------------------
  // the worker as the runtime runs it
  // ---------------------------------------------------------------------------

  class Worker {
    var node: Node
    var state: DepState
    ghost var queries: nat
    const store: Rag.Store

    ghost function Current(): (c: Config)
      reads this, store
    {
      Config(node, state, store.entries, queries)
    }

    constructor(initial: DepState, store: Rag.Store)
      ensures node == FetchChangelog && state == initial && queries == 0
      ensures this.store == store
    {
      node := FetchChangelog;
      state := initial;
      queries := 0;
      this.store := store;
    }

    /** The embed node: chunk, keep the sections in range, embed them into the store.  It
        raises when the range filter or an embedding call does, and then leaves the store
        as it was. */
    method Embed(svc: Services) returns (cmd: Option<Command>)
      requires node == EmbedChangelog
      modifies store
      ensures cmd.None? <==> EmbedFails(state, svc)
      ensures cmd.None? ==> store.entries == old(store.entries)
      ensures cmd.Some? ==>
        cmd.value == EmbedNode(state, Changelog.Chunks(state.changelog), EmbedFilter(state).value) &&
        store.entries == Rag.PutChunks(old(store.entries), state.depName, Embedded(state), Vectors(svc.embed))
    {
      var chunks := Changelog.ChunkChangelogByVersion(state.changelog);
      var filtered := chunks;
      if chunks != [] {
        var r := Changelog.FilterChunksByVersionRange(chunks, state.currentVersion, state.latestVersion);
        if r.Failure? {
          return None;
        }
        filtered := r.value;
      }
      assert filtered == Embedded(state);
      if EmbeddingFails(filtered, svc.embed) {
        return None;
      }
      store.EmbedChangelog(state.depName, filtered, Vectors(svc.embed));
      return Some(EmbedNode(state, chunks, filtered));
    }

    /** Run the current node and merge its command. */
    method Step(svc: Services)
      requires !Done(node)
      modifies this, store
      ensures Current() == Transition(old(Current()), svc)
    {
      ghost var c := Current();
      var cmd: Command;
      match node {
        case FetchChangelog =>
          var (text, ws) := svc.fetch(UrlOrNone(state.changelogUrl), UrlOrNone(state.repositoryUrl), state.depName);
          cmd := FetchNode(text, ws);
        case EmbedChangelog =>
          var embedded := Embed(svc);
          if embedded.None? {
            node := Raised;
            return;
          }
          cmd := embedded.value;
        case RagAnalyze =>
          var answer := svc.query(store.entries, QueryText(state), state.depName);
          queries := queries + 1;
          cmd := RagNode(state, answer, svc.threshold);
        case RefineQuery =>
          cmd := RefineNode(state);
        case ParseCode =>
          cmd := ParseNode(svc.findUsages(state.projectPath, state.depName));
        case AssessImpact =>
          var a := svc.assess(state.depName, state.currentVersion, state.latestVersion, state.ragResults, state.codeUsages);
          if a.None? {
            node := Raised;
            return;
          }
          cmd := AssessNode(state, a.value);
      }
      assert cmd == NodeCommand(c, svc);
      node := cmd.goto;
      state := Merge(state, cmd.update);
    }

    /** Step until the worker ends. */
    method Run(svc: Services)
      modifies this, store
      ensures Current() == Final(old(Current()), svc)
    {
      while !Done(node)
        invariant Final(Current(), svc) == Final(old(Current()), svc)
        decreases Potential(node, state.retryCount)
      {
        ghost var c := Current();
        TransitionDecreases(c, svc);
        Step(svc);
      }
    }
  }

  // ---------------------------------------------------------------------------
  // the parent graph's nodes
  // ---------------------------------------------------------------------------

  /** One dependency as the scan stores it for the fan-out. */
  datatype DepEntry = DepEntry(
    name: string,
    currentVersion: string,
    latestVersion: string,
    projectPath: string,
    changelogUrl: string,
    repositoryUrl: string)

  function ScanEntry(projectPath: string, od: OutdatedDependency): (e: DepEntry) {
    DepEntry(od.name, od.currentVersion, od.latestVersion, projectPath,
             UrlOrEmpty(od.changelogUrl), UrlOrEmpty(od.repositoryUrl))
  }

  /** `scan_dependencies_node` as intended, over the outdated list that `find_outdated`
      returns first: one entry each, in order, with the project path and absent URLs
      stored as `""`. */
  function ScanDependencies(projectPath: string, outdated: seq<OutdatedDependency>): (deps: seq<DepEntry>)
    ensures |deps| == |outdated|
    ensures forall i :: 0 <= i < |deps| ==> deps[i].projectPath == projectPath && deps[i].name == outdated[i].name
    ensures forall i :: 0 <= i < |deps| ==>
      UrlOrNone(deps[i].changelogUrl) == (if outdated[i].changelogUrl == Some("") then None else outdated[i].changelogUrl) &&
      UrlOrNone(deps[i].repositoryUrl) == (if outdated[i].repositoryUrl == Some("") then None else outdated[i].repositoryUrl)
  {
    seq(|outdated|, i requires 0 <= i < |outdated| => ScanEntry(projectPath, outdated[i]))
  }

  /** A value the comprehension of `scan_dependencies_node` meets as it iterates: an
      outdated dependency, or a whole list of a given length. */
  datatype Iterated = AnOutdated(od: OutdatedDependency) | AList(len: nat)

  /** Reading `x.name`: a list has no such attribute. */
  function NameAttr(x: Iterated): (r: Result<string, string>)
    ensures r.Success? <==> x.AnOutdated?
    ensures x.AnOutdated? ==> r.value == x.od.name
  {
    match x
    case AnOutdated(od) => Success(od.name)
    case AList(_) => Failure("AttributeError: 'list' object has no attribute 'name'")
  }

  /** The comprehension over `xs`: the entries in order, or the first attribute error. */
  function EntriesOf(projectPath: string, xs: seq<Iterated>): (r: Result<seq<DepEntry>, string>)
    ensures r.Success? <==> forall i :: 0 <= i < |xs| ==> xs[i].AnOutdated?
    ensures r.Success? ==> |r.value| == |xs|
  {
    if xs == [] then Success([])
    else match NameAttr(xs[0])
      case Failure(e) => Failure(e)
      case Success(_) =>
        match EntriesOf(projectPath, xs[1..])
        case Failure(e) => Failure(e)
        case Success(rest) => Success([ScanEntry(projectPath, xs[0].od)] + rest)
  }

  /** `scan_dependencies_node` as written: it binds the pair `(outdated, errors)` that
      `find_outdated` returns to one name and iterates over the pair itself. */
  function ScanDependenciesAsWritten(projectPath: string, outdated: seq<OutdatedDependency>,
                                     errors: seq<string>): (r: Result<seq<DepEntry>, string>)
    ensures r.Failure? ==> r.error == "AttributeError: 'list' object has no attribute 'name'"
  {
    EntriesOf(projectPath, [AList(|outdated|), AList(|errors|)])
  }

  /** As written, the scan node fails for every project, even one with nothing outdated. */
  lemma ScanAsWrittenAlwaysFails(projectPath: string, outdated: seq<OutdatedDependency>, errors: seq<string>)
    ensures ScanDependenciesAsWritten(projectPath, outdated, errors).Failure?
  {
    assert ![AList(|outdated|), AList(|errors|)][0].AnOutdated?;
  }

  /** Iterating over the outdated list itself gives exactly the entries of
      `ScanDependencies`, which is what the corrected node stores. */
  lemma {:induction false} EntriesOfOutdated(projectPath: string, outdated: seq<OutdatedDependency>)
    ensures EntriesOf(projectPath, seq(|outdated|, i requires 0 <= i < |outdated| => AnOutdated(outdated[i]))) ==
            Success(ScanDependencies(projectPath, outdated))
    decreases |outdated|
  {
    var xs := seq(|outdated|, i requires 0 <= i < |outdated| => AnOutdated(outdated[i]));
    if outdated != [] {
      var ys := seq(|outdated[1..]|, i requires 0 <= i < |outdated[1..]| => AnOutdated(outdated[1..][i]));
      assert xs[1..] == ys;
      EntriesOfOutdated(projectPath, outdated[1..]);
      assert ScanDependencies(projectPath, outdated) ==
             [ScanEntry(projectPath, outdated[0])] + ScanDependencies(projectPath, outdated[1..]);
    }
  }

  /** The state a worker starts from. */
  function FreshState(e: DepEntry): (s: DepState) {
    DepState(e.name, e.currentVersion, e.latestVersion, e.projectPath, e.changelogUrl,
             e.repositoryUrl, "", [], 0.0, 0, [], [], [])
  }

  /** `fan_out_deps`: one fresh worker state per dependency, in order. */
  function FanOut(deps: seq<DepEntry>): (states: seq<DepState>)
    ensures |states| == |deps|
    ensures forall i :: 0 <= i < |states| ==>
      states[i].depName == deps[i].name && states[i].currentVersion == deps[i].currentVersion &&
      states[i].latestVersion == deps[i].latestVersion && states[i].projectPath == deps[i].projectPath &&
      states[i].changelogUrl == deps[i].changelogUrl && states[i].repositoryUrl == deps[i].repositoryUrl
    ensures forall i :: 0 <= i < |states| ==>
      states[i].changelog == "" && states[i].ragResults == [] && states[i].ragConfidence == 0.0 &&
      states[i].retryCount == 0 && states[i].codeUsages == [] && states[i].impactAssessments == [] &&
      states[i].warnings == []
  {
    seq(|deps|, i requires 0 <= i < |deps| => FreshState(deps[i]))
  }

  /** A fresh worker raises with no query made exactly when its changelog has sections
      and one of its versions is not a release version, or the embedding of an in-range
      slice raises.  Otherwise it makes one to `MaxRagRetries + 1` queries and raises
      exactly when the assessor does.  A raise leaves no assessment; the end, one. */
  lemma FreshWorkerRun(e: DepEntry, entries: map<string, Rag.Entry>, svc: Services)
    ensures var c := Config(FetchChangelog, FreshState(e), entries, 0);
      var d := Final(c, svc);
      var f := Fetched(c, svc).state;
      (d.node == Raised && d.queries == 0 <==>
         (Changelog.Chunks(f.changelog) != [] &&
          (Versions.ParseRelease(e.currentVersion).None? || Versions.ParseRelease(e.latestVersion).None?)) ||
         (EmbedFilter(f).Success? && EmbeddingFails(Embedded(f), svc.embed))) &&
      (!EmbedFails(f, svc) ==>
         1 <= d.queries <= MaxRagRetries + 1 && (d.node == Raised <==> Assessed(d.state, svc).None?)) &&
      (d.node == Raised ==> d.state.impactAssessments == []) &&
      (d.node == End ==> |d.state.impactAssessments| == 1)
  {
    var c := Config(FetchChangelog, FreshState(e), entries, 0);
    RaiseSites(c, svc);
    EmbedRaises(Fetched(c, svc).state);
    OneAssessment(c, svc);
    QueryBounds(c, svc);
  }

  /** A fresh worker whose two versions are release versions reaches the end, with
      exactly one assessment, iff no embedding call and no assessor call raises. */
  lemma ValidVersionsEnd(e: DepEntry, entries: map<string, Rag.Entry>, svc: Services)
    requires Versions.ParseRelease(e.currentVersion).Some? && Versions.ParseRelease(e.latestVersion).Some?
    ensures var c := Config(FetchChangelog, FreshState(e), entries, 0);
      var d := Final(c, svc);
      var f := Fetched(c, svc).state;
      EmbedFilter(f).Success? &&
      (d.node == End <==> !EmbeddingFails(Embedded(f), svc.embed) && Assessed(d.state, svc).Some?) &&
      (d.node == End ==> |d.state.impactAssessments| == 1)
  {
    var c := Config(FetchChangelog, FreshState(e), entries, 0);
    EmbedRaises(Fetched(c, svc).state);
    FreshWorkerRun(e, entries, svc);
  }

  datatype Route = GeneratePatches | GenerateReport

  /** `route_after_fan_in` */
  function RouteAfterFanIn(fixMode: bool): (r: Route)
    ensures r == GeneratePatches <==> fixMode
  {
    if fixMode then GeneratePatches else GenerateReport
  }
}
