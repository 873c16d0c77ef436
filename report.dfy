/** The analysis report: its counts, and its Markdown export. The export is modelled as a
    sequence of typed lines, each kind rendered to its text by `Render`. */
module Report {
  import opened Wrappers
  import opened Text
  import opened Schemas

  // ---------------------------------------------------------------------------
  // building the report
  // ---------------------------------------------------------------------------

  /** The number of assessments whose overall severity is critical. */
  function CriticalCount(assessments: seq<ImpactAssessment>): (n: nat)
    ensures n <= |assessments|
  {
    if |assessments| == 0 then 0
    else CriticalCount(assessments[..|assessments| - 1]) +
         (if assessments[|assessments| - 1].overallSeverity == Critical then 1 else 0)
  }

  /** No critical assessment gives 0, and only all-critical assessments reach the total. */
  lemma {:induction false} CriticalCountExtremes(assessments: seq<ImpactAssessment>)
    ensures CriticalCount(assessments) == 0 <==>
            forall i :: 0 <= i < |assessments| ==> assessments[i].overallSeverity != Critical
    ensures CriticalCount(assessments) == |assessments| <==>
            forall i :: 0 <= i < |assessments| ==> assessments[i].overallSeverity == Critical
    decreases |assessments|
  {
    if |assessments| > 0 {
      var n := |assessments| - 1;
      CriticalCountExtremes(assessments[..n]);
      assert forall i :: 0 <= i < n ==> assessments[..n][i] == assessments[i];
    }
  }

  /** `build_report`, with the timestamp supplied by the caller. */
  function BuildReport(projectPath: string, timestamp: string, assessments: seq<ImpactAssessment>,
                       patches: seq<PatchSet>, errors: seq<string>): (r: AnalysisReport)
    ensures r.totalDependencies == |assessments| && r.outdatedCount == |assessments|
    ensures r.criticalCount == CriticalCount(assessments) && r.criticalCount <= r.totalDependencies
    ensures r.assessments == assessments && r.patches == patches && r.errors == errors
    ensures r.projectPath == projectPath && r.timestamp == timestamp
  {
    AnalysisReport(projectPath, timestamp, |assessments|, |assessments|, CriticalCount(assessments),
                   assessments, patches, errors)
  }

  // ---------------------------------------------------------------------------
  // the lines of the Markdown export
  // ---------------------------------------------------------------------------

  datatype Line =
    | Blank
    | Title
    | ProjectField(path: string)
    | TimestampField(timestamp: string)
    | SummaryHeading
    | MetricHeader
    | MetricRule
    | TotalMetric(total: nat)
    | OutdatedMetric(outdated: nat)
    | CriticalMetric(critical: nat)
    | DetailsHeading
    | DepHeading(dep: string, current: string, latest: string)
    | SeverityField(severity: Severity)
    | SummaryField(summary: string)
    | ImpactHeader
    | ImpactRule
    | ImpactRow(breakingChange: string, rowSeverity: Severity, usages: seq<string>, fix: string)
    | DiagnosticsHeading
    | Bullet(item: string)
    | ErrorsHeading
  {
    /** The lines that open with `|`: the rows of the two tables. */
    predicate IsTableLine() {
      MetricHeader? || MetricRule? || TotalMetric? || OutdatedMetric? || CriticalMetric? ||
      ImpactHeader? || ImpactRule? || ImpactRow?
    }
  }

  /** The affected-files cell: the usages joined by commas, or `N/A`. */
  function UsagesCell(usages: seq<string>): (c: string)
    ensures usages == [] ==> c == "N/A"
    ensures usages != [] ==> c == Join(usages, ", ")
  {
    if usages == [] then "N/A" else Join(usages, ", ")
  }

  // Markdown building blocks.

  function Repeat(c: char, n: nat): (s: string)
    ensures |s| == n && forall i :: 0 <= i < n ==> s[i] == c
  {
    if n == 0 then [] else Repeat(c, n - 1) + [c]
  }

  /** A heading of the given level: that many `#`, a space, the text. */
  function MdHeading(level: nat, text: string): (h: string)
    ensures |h| == level + 1 + |text|
    ensures forall i :: 0 <= i < level ==> h[i] == '#'
    ensures h[level] == ' ' && h[level + 1..] == text
  {
    Repeat('#', level) + " " + text
  }

  /** Bold text: `**text**`. */
  function Bold(text: string): (b: string)
    ensures |b| == |text| + 4 && b[0] == '*' && b[1] == '*' && b[2..|text| + 2] == text
  {
    "**" + text + "**"
  }

  /** A named field: `**name:** value`. */
  function Field(name: string, value: string): (f: string)
    ensures |f| > |name| + 2 && f[0] == '*' && f[1] == '*' && f[2..|name| + 2] == name
  {
    Bold(name + ":") + " " + value
  }

  /** A table row: `| a | b | c |`. */
  function Row(cells: seq<string>): (r: string)
    ensures |r| >= 4 && r[0] == '|'
  {
    "| " + Join(cells, " | ") + " |"
  }

  /** A table's header rule: `|---|---|`. */
  function RuleRow(cells: seq<string>): (r: string)
    ensures |r| >= 2 && r[0] == '|'
  {
    "|" + Join(cells, "|") + "|"
  }

  function BulletText(item: string): (b: string)
    ensures |b| >= 2 && b[0] == '-' && b[1] == ' ' && b[2..] == item
  {
    "- " + item
  }

  /** The two section markers spelled out. */
  lemma MarkerTexts()
    ensures MdHeading(2, "Errors") == "## Errors"
    ensures Bold("Diagnostics:") == "**Diagnostics:**"
  {
  }

  /** The text of one line of the export. */
  function Render(l: Line): (s: string)
  {
    match l
    case Blank => ""
    case Title => MdHeading(1, "MigratOwl Analysis Report")
    case ProjectField(p) => Field("Project", p)
    case TimestampField(t) => Field("Timestamp", t)
    case SummaryHeading => MdHeading(2, "Summary")
    case MetricHeader => Row(["Metric", "Value"])
    case MetricRule => RuleRow(["--------", "-------"])
    case TotalMetric(n) => Row(["Total Dependencies", NatToString(n)])
    case OutdatedMetric(n) => Row(["Outdated", NatToString(n)])
    case CriticalMetric(n) => Row(["Critical", NatToString(n)])
    case DetailsHeading => MdHeading(2, "Dependency Details")
    case DepHeading(dep, current, latest) => MdHeading(3, dep + " (" + current + " -> " + latest + ")")
    case SeverityField(sev) => Field("Severity", sev.Upper())
    case SummaryField(s) => Field("Summary", s)
    case ImpactHeader => Row(["Breaking Change", "Severity", "Affected Files", "Suggested Fix"])
    case ImpactRule => RuleRow(["----------------", "----------", "----------------", "---------------"])
    case ImpactRow(bc, sev, us, fix) => Row([bc, sev.Upper(), UsagesCell(us), fix])
    case DiagnosticsHeading => Bold("Diagnostics:")
    case Bullet(item) => BulletText(item)
    case ErrorsHeading => MdHeading(2, "Errors")
  }

  /** The text of each line, in order. */
  function RenderLines(ls: seq<Line>): (texts: seq<string>)
    ensures |texts| == |ls|
  {
    if |ls| == 0 then [] else RenderLines(ls[..|ls| - 1]) + [Render(ls[|ls| - 1])]
  }

  lemma {:induction false} RenderLinesAt(ls: seq<Line>, k: nat)
    requires k < |ls|
    ensures RenderLines(ls)[k] == Render(ls[k])
    decreases |ls|
  {
    var front := ls[..|ls| - 1];
    assert RenderLines(ls) == RenderLines(front) + [Render(ls[|ls| - 1])];
    if k < |ls| - 1 {
      RenderLinesAt(front, k);
      assert front[k] == ls[k];
    }
  }

  /** The title block and the Summary table, up to the details heading. */
  function SummaryDoc(r: AnalysisReport): (ls: seq<Line>)
    ensures |ls| == 15
  {
    [Title, Blank, ProjectField(r.projectPath), TimestampField(r.timestamp), Blank,
     SummaryHeading, Blank, MetricHeader, MetricRule,
     TotalMetric(r.totalDependencies), OutdatedMetric(r.outdatedCount), CriticalMetric(r.criticalCount), Blank,
     DetailsHeading, Blank]
  }

  /** The heading of an assessment, with `?` for a missing version. */
  function Heading(a: ImpactAssessment): (h: Line)
    ensures h.DepHeading? && h.dep == a.depName
  {
    DepHeading(a.depName, VersionOr(a.versions, "current"), VersionOr(a.versions, "latest"))
  }

  function ImpactRows(impacts: seq<ImpactItem>): (ls: seq<Line>)
    ensures |ls| == |impacts|
  {
    if |impacts| == 0 then []
    else
      var i := impacts[|impacts| - 1];
      ImpactRows(impacts[..|impacts| - 1]) + [ImpactRow(i.breakingChange, i.severity, i.affectedUsages, i.suggestedFix)]
  }

  function Bullets(items: seq<string>): (ls: seq<Line>)
    ensures |ls| == |items|
  {
    if |items| == 0 then [] else Bullets(items[..|items| - 1]) + [Bullet(items[|items| - 1])]
  }

  /** The impact table, present only when there are impacts. */
  function TableDoc(impacts: seq<ImpactItem>): (ls: seq<Line>)
  {
    if impacts == [] then [] else [ImpactHeader, ImpactRule] + ImpactRows(impacts) + [Blank]
  }

  /** The diagnostics list, present only when there are warnings. */
  function DiagnosticsDoc(warnings: seq<string>): (ls: seq<Line>)
  {
    if warnings == [] then [] else [DiagnosticsHeading] + Bullets(warnings) + [Blank]
  }

  function TopDoc(a: ImpactAssessment): (ls: seq<Line>)
  {
    [Heading(a), Blank, SeverityField(a.overallSeverity), SummaryField(a.summary), Blank]
  }

  /** One assessment's block: heading, severity and summary, then the impact table
      and the diagnostics. */
  function AssessmentDoc(a: ImpactAssessment): (ls: seq<Line>)
  {
    TopDoc(a) + TableDoc(a.impacts) + DiagnosticsDoc(a.warnings)
  }

  /** The blocks of all assessments, in order. */
  function DetailDoc(assessments: seq<ImpactAssessment>): (ls: seq<Line>)
  {
    FlatMap(AssessmentDoc, assessments)
  }

  function ErrorDoc(errors: seq<string>): (ls: seq<Line>)
  {
    if errors == [] then [] else [ErrorsHeading, Blank] + Bullets(errors) + [Blank]
  }

  /** The whole export, line by line. */
  function Document(r: AnalysisReport): (ls: seq<Line>)
  {
    SummaryDoc(r) + DetailDoc(r.assessments) + ErrorDoc(r.errors)
  }

  // ---------------------------------------------------------------------------
  // the export
  // ---------------------------------------------------------------------------

  method AppendBullets(doc: seq<Line>, items: seq<string>) returns (d: seq<Line>)
    ensures d == doc + Bullets(items)
  {
    d := doc;
    for k := 0 to |items|
      invariant d == doc + Bullets(items[..k])
    {
      assert items[..k + 1][..k] == items[..k];
      d := d + [Bullet(items[k])];
    }
    assert items[..|items|] == items;
  }

  method AppendImpactRows(doc: seq<Line>, impacts: seq<ImpactItem>) returns (d: seq<Line>)
    ensures d == doc + ImpactRows(impacts)
  {
    d := doc;
    for k := 0 to |impacts|
      invariant d == doc + ImpactRows(impacts[..k])
    {
      assert impacts[..k + 1][..k] == impacts[..k];
      var i := impacts[k];
      d := d + [ImpactRow(i.breakingChange, i.severity, i.affectedUsages, i.suggestedFix)];
    }
    assert impacts[..|impacts|] == impacts;
  }

  method AppendAssessment(doc: seq<Line>, a: ImpactAssessment) returns (d: seq<Line>)
    ensures d == doc + AssessmentDoc(a)
  {
    var current := VersionOr(a.versions, "current");
    var latest := VersionOr(a.versions, "latest");
    d := doc + [DepHeading(a.depName, current, latest), Blank, SeverityField(a.overallSeverity),
                SummaryField(a.summary), Blank];
    ghost var top := d;
    if a.impacts != [] {
      d := d + [ImpactHeader, ImpactRule];
      d := AppendImpactRows(d, a.impacts);
      d := d + [Blank];
      Regroup(top, [ImpactHeader, ImpactRule], ImpactRows(a.impacts), [Blank]);
    }
    ghost var table := d;
    if a.warnings != [] {
      d := d + [DiagnosticsHeading];
      d := AppendBullets(d, a.warnings);
      d := d + [Blank];
      Regroup(table, [DiagnosticsHeading], Bullets(a.warnings), [Blank]);
    }
    Regroup(doc, TopDoc(a), TableDoc(a.impacts), DiagnosticsDoc(a.warnings));
  }

  /** The assessment blocks appended in order. */
  method AppendDetails(doc: seq<Line>, assessments: seq<ImpactAssessment>) returns (d: seq<Line>)
    ensures d == doc + DetailDoc(assessments)
  {
    d := doc;
    for i := 0 to |assessments|
      invariant d == doc + DetailDoc(assessments[..i])
    {
      FlatMapSnoc(AssessmentDoc, assessments, i);
      Assoc(doc, DetailDoc(assessments[..i]), AssessmentDoc(assessments[i]));
      d := AppendAssessment(d, assessments[i]);
    }
    assert assessments[..|assessments|] == assessments;
  }

  method AppendErrors(doc: seq<Line>, errors: seq<string>) returns (d: seq<Line>)
    ensures d == doc + ErrorDoc(errors)
  {
    d := doc;
    if errors != [] {
      d := d + [ErrorsHeading, Blank];
      d := AppendBullets(d, errors);
      d := d + [Blank];
      Regroup(doc, [ErrorsHeading, Blank], Bullets(errors), [Blank]);
    }
  }

  /** `export_markdown`: the lines are collected in order, then rendered and joined by
      newlines. */
  method ExportMarkdown(r: AnalysisReport) returns (text: string)
    ensures text == Join(RenderLines(Document(r)), "\n")
  {
    var lines := [Title, Blank, ProjectField(r.projectPath), TimestampField(r.timestamp), Blank,
                  SummaryHeading, Blank, MetricHeader, MetricRule,
                  TotalMetric(r.totalDependencies), OutdatedMetric(r.outdatedCount),
                  CriticalMetric(r.criticalCount), Blank, DetailsHeading, Blank];
    lines := AppendDetails(lines, r.assessments);
    lines := AppendErrors(lines, r.errors);
    text := Join(RenderLines(lines), "\n");
  }

  // ---------------------------------------------------------------------------
  // what the export promises
  // ---------------------------------------------------------------------------

  lemma JoinStartsWithFirst(parts: seq<string>, sep: string)
    requires parts != []
    ensures StartsWith(Join(parts, sep), parts[0])
  {
    if |parts| > 1 {
      assert Join(parts, sep) == parts[0] + (sep + Join(parts[1..], sep));
    }
  }

  /** The title, the Summary heading and the details heading come first, in that order. */
  lemma MarkdownOpening(r: AnalysisReport)
    ensures var ls := Document(r);
      ls[0] == Title && ls[5] == SummaryHeading && ls[13] == DetailsHeading
  {
    TitleLine(r);
    SummaryHeadingLine(r);
    DetailsHeadingLine(r);
  }

  lemma TitleLine(r: AnalysisReport)
    ensures |Document(r)| > 0 && Document(r)[0] == Title
  {
    FrontAt(SummaryDoc(r), DetailDoc(r.assessments), ErrorDoc(r.errors), 0);
  }

  lemma SummaryHeadingLine(r: AnalysisReport)
    ensures |Document(r)| > 5 && Document(r)[5] == SummaryHeading
  {
    FrontAt(SummaryDoc(r), DetailDoc(r.assessments), ErrorDoc(r.errors), 5);
  }

  lemma DetailsHeadingLine(r: AnalysisReport)
    ensures |Document(r)| > 13 && Document(r)[13] == DetailsHeading
  {
    FrontAt(SummaryDoc(r), DetailDoc(r.assessments), ErrorDoc(r.errors), 13);
  }

  /** The exported text opens with the title. */
  lemma MarkdownOpensWithTitle(r: AnalysisReport)
    ensures StartsWith(Join(RenderLines(Document(r)), "\n"), MdHeading(1, "MigratOwl Analysis Report"))
  {
    MarkdownOpening(r);
    var texts := RenderLines(Document(r));
    RenderLinesAt(Document(r), 0);
    JoinStartsWithFirst(texts, "\n");
  }

  /** The metric rows carry the report's counts. */
  lemma SummaryMetrics(r: AnalysisReport)
    ensures Document(r)[9] == TotalMetric(r.totalDependencies)
    ensures Document(r)[10] == OutdatedMetric(r.outdatedCount)
    ensures Document(r)[11] == CriticalMetric(r.criticalCount)
  {
    var s := SummaryDoc(r);
    FrontAt(s, DetailDoc(r.assessments), ErrorDoc(r.errors), 9);
    FrontAt(s, DetailDoc(r.assessments), ErrorDoc(r.errors), 10);
    FrontAt(s, DetailDoc(r.assessments), ErrorDoc(r.errors), 11);
  }

  /** Assessment `i`'s block starts with its heading, right after the blocks of the
      assessments before it, in the order of the report. */
  lemma AssessmentHeadingAt(r: AnalysisReport, i: nat)
    requires i < |r.assessments|
    ensures var k := 15 + |DetailDoc(r.assessments[..i])|;
      k < |Document(r)| && Document(r)[k] == Heading(r.assessments[i])
  {
    var xs := r.assessments;
    assert xs == xs[..i] + ([xs[i]] + xs[i + 1..]);
    FlatMapAppend(AssessmentDoc, xs[..i], [xs[i]] + xs[i + 1..]);
    FlatMapAppend(AssessmentDoc, [xs[i]], xs[i + 1..]);
    assert DetailDoc([xs[i]]) == AssessmentDoc(xs[i]) by {
      assert [xs[i]][..0] == [];
    }
  }

  lemma {:induction false} ImpactRowsAt(impacts: seq<ImpactItem>, k: nat)
    requires k < |impacts|
    ensures ImpactRows(impacts)[k].ImpactRow?
    decreases |impacts|
  {
    if k < |impacts| - 1 {
      ImpactRowsAt(impacts[..|impacts| - 1], k);
    }
  }

  lemma {:induction false} BulletsAt(items: seq<string>, k: nat)
    requires k < |items|
    ensures Bullets(items)[k] == Bullet(items[k])
    decreases |items|
  {
    if k < |items| - 1 {
      BulletsAt(items[..|items| - 1], k);
    }
  }

  /** The rendered lines that open with `|` are exactly the table lines. */
  lemma TableLineOpensWithBar(l: Line)
    ensures |Render(l)| > 0 && Render(l)[0] == '|' <==> l.IsTableLine()
  {
  }

  predicate HasTableLine(ls: seq<Line>) {
    exists k :: 0 <= k < |ls| && ls[k].IsTableLine()
  }

  /** An assessment's block holds table lines iff it has impacts. */
  lemma ImpactTableIffImpacts(a: ImpactAssessment)
    ensures HasTableLine(AssessmentDoc(a)) <==> a.impacts != []
  {
    var ls := AssessmentDoc(a);
    if a.impacts != [] {
      assert ls[5] == ImpactHeader;
    } else {
      forall k | 0 <= k < |ls| ensures !ls[k].IsTableLine() {
        if 5 < k < |ls| - 1 {
          BulletsAt(a.warnings, k - 6);
        }
      }
    }
  }

  /** The same at the level of the exported text: a line of the block opens with `|`
      iff the assessment has impacts. */
  lemma ImpactTableTextIffImpacts(a: ImpactAssessment)
    ensures (exists k :: 0 <= k < |RenderLines(AssessmentDoc(a))| &&
               |RenderLines(AssessmentDoc(a))[k]| > 0 && RenderLines(AssessmentDoc(a))[k][0] == '|')
            <==> a.impacts != []
  {
    var ls := AssessmentDoc(a);
    var texts := RenderLines(ls);
    ImpactTableIffImpacts(a);
    forall k | 0 <= k < |ls|
      ensures (|texts[k]| > 0 && texts[k][0] == '|') <==> ls[k].IsTableLine()
    {
      RenderLinesAt(ls, k);
      TableLineOpensWithBar(ls[k]);
    }
  }

  /** The headings open with `#`, and their next characters tell them apart. */
  lemma HeadingOpening(l: Line)
    requires l.Title? || l.SummaryHeading? || l.DetailsHeading? || l.ErrorsHeading? || l.DepHeading?
    ensures |Render(l)| > 3 && Render(l)[0] == '#'
    ensures l.Title? ==> Render(l)[1] == ' '
    ensures l.DepHeading? ==> Render(l)[2] == '#'
    ensures l.SummaryHeading? ==> Render(l)[2] == ' ' && Render(l)[3] == 'S'
    ensures l.DetailsHeading? ==> Render(l)[2] == ' ' && Render(l)[3] == 'D'
    ensures l.ErrorsHeading? ==> Render(l) == MdHeading(2, "Errors")
  {
  }

  /** The fields and the diagnostics heading open with `**` and then their name. */
  lemma BoldOpening(l: Line)
    requires l.ProjectField? || l.TimestampField? || l.SeverityField? || l.SummaryField? || l.DiagnosticsHeading?
    ensures |Render(l)| > 3 && Render(l)[0] == '*'
    ensures l.ProjectField? ==> Render(l)[2] == 'P'
    ensures l.TimestampField? ==> Render(l)[2] == 'T'
    ensures l.SeverityField? || l.SummaryField? ==> Render(l)[2] == 'S'
    ensures l.DiagnosticsHeading? ==> Render(l) == Bold("Diagnostics:")
  {
    if l.ProjectField? {
      FieldStart("Project", l.path);
    } else if l.TimestampField? {
      FieldStart("Timestamp", l.timestamp);
    } else if l.SeverityField? {
      FieldStart("Severity", l.severity.Upper());
    } else if l.SummaryField? {
      FieldStart("Summary", l.summary);
    }
  }

  /** A field opens with `**` and its name. */
  lemma FieldStart(name: string, value: string)
    requires |name| > 0
    ensures var f := Field(name, value); |f| > 3 && f[0] == '*' && f[2] == name[0]
  {
    var f := Field(name, value);
    assert f[2..|name| + 2][0] == f[2];
  }

  /** Only the diagnostics heading renders as the bold `Diagnostics:`. */
  lemma DiagnosticsText(l: Line)
    ensures Render(l) == Bold("Diagnostics:") <==> l == DiagnosticsHeading
  {
    var d := Bold("Diagnostics:");
    assert d[0] == '*' && d[2] == 'D';
    TableLineOpensWithBar(l);
    if l.Title? || l.SummaryHeading? || l.DetailsHeading? || l.ErrorsHeading? || l.DepHeading? {
      HeadingOpening(l);
    } else if l.ProjectField? || l.TimestampField? || l.SeverityField? || l.SummaryField? || l.DiagnosticsHeading? {
      BoldOpening(l);
    }
  }

  /** An assessment's block shows the diagnostics iff the assessment has warnings. */
  lemma DiagnosticsIffWarnings(a: ImpactAssessment)
    ensures Bold("Diagnostics:") in RenderLines(AssessmentDoc(a)) <==> a.warnings != []
  {
    var ls := AssessmentDoc(a);
    var texts := RenderLines(ls);
    forall k | 0 <= k < |ls| ensures texts[k] == Bold("Diagnostics:") <==> ls[k] == DiagnosticsHeading {
      RenderLinesAt(ls, k);
      DiagnosticsText(ls[k]);
    }
    var table := TableDoc(a.impacts);
    if a.warnings != [] {
      assert ls[5 + |table|] == DiagnosticsHeading;
    } else {
      forall k | 0 <= k < |ls| ensures ls[k] != DiagnosticsHeading {
        if 7 <= k < |ls| - 1 {
          ImpactRowsAt(a.impacts, k - 7);
        }
      }
    }
  }

  /** Only the errors heading renders as the level-2 heading `Errors`. */
  lemma ErrorsText(l: Line)
    ensures Render(l) == MdHeading(2, "Errors") <==> l == ErrorsHeading
  {
    var e := MdHeading(2, "Errors");
    assert e[0] == '#' && e[1] == '#' && e[2] == ' ' && e[3] == 'E';
    TableLineOpensWithBar(l);
    if l.Title? || l.SummaryHeading? || l.DetailsHeading? || l.ErrorsHeading? || l.DepHeading? {
      HeadingOpening(l);
    } else if l.ProjectField? || l.TimestampField? || l.SeverityField? || l.SummaryField? || l.DiagnosticsHeading? {
      BoldOpening(l);
    }
  }

  lemma AssessmentDocHasNoErrorsHeading(a: ImpactAssessment)
    ensures ErrorsHeading !in AssessmentDoc(a)
  {
    var ls := AssessmentDoc(a);
    var table := TableDoc(a.impacts);
    forall k | 0 <= k < |ls| ensures ls[k] != ErrorsHeading {
      if 7 <= k < 5 + |table| - 1 {
        ImpactRowsAt(a.impacts, k - 7);
      } else if 5 + |table| < k < |ls| - 1 {
        BulletsAt(a.warnings, k - 6 - |table|);
      }
    }
  }

  lemma {:induction false} DetailDocHasNoErrorsHeading(assessments: seq<ImpactAssessment>)
    ensures ErrorsHeading !in DetailDoc(assessments)
    decreases |assessments|
  {
    if |assessments| > 0 {
      DetailDocHasNoErrorsHeading(assessments[..|assessments| - 1]);
      AssessmentDocHasNoErrorsHeading(assessments[|assessments| - 1]);
    }
  }

  /** A line whose text no other line has: its text is among the rendered lines iff
      the line is among the lines. */
  lemma RenderedIn(ls: seq<Line>, l: Line)
    requires forall x: Line :: Render(x) == Render(l) ==> x == l
    ensures Render(l) in RenderLines(ls) <==> l in ls
  {
    var texts := RenderLines(ls);
    if l in ls {
      var k :| 0 <= k < |ls| && ls[k] == l;
      RenderLinesAt(ls, k);
    }
    if Render(l) in texts {
      var k :| 0 <= k < |texts| && texts[k] == Render(l);
      RenderLinesAt(ls, k);
    }
  }

  /** The document holds the errors heading iff the report has errors. */
  lemma ErrorsLineIffErrors(r: AnalysisReport)
    ensures ErrorsHeading in Document(r) <==> r.errors != []
  {
    var s := SummaryDoc(r);
    assert ErrorsHeading !in s;
    DetailDocHasNoErrorsHeading(r.assessments);
    if r.errors != [] {
      assert ErrorDoc(r.errors)[0] == ErrorsHeading;
    }
  }

  /** The Errors section appears in the exported lines iff the report has errors. */
  lemma ErrorsIffErrors(r: AnalysisReport)
    ensures MdHeading(2, "Errors") in RenderLines(Document(r)) <==> r.errors != []
  {
    ErrorsLineIffErrors(r);
    forall x: Line | Render(x) == Render(ErrorsHeading) ensures x == ErrorsHeading {
      ErrorsText(x);
    }
    RenderedIn(Document(r), ErrorsHeading);
  }
}
