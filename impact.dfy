/** Impact assessment: the short cut taken when there is nothing to cross-reference,
    the context text handed to the language model, and the versions the result carries.
    The language model is a parameter: a function from the user prompt to a structured
    assessment. */
module Impact {
  import opened Text
  import opened Schemas

  /** The versions map of an assessment: exactly the two versions it was asked about. */
  function VersionsOf(current: string, latest: string): (m: map<string, string>)
    ensures "current" in m && m["current"] == current
    ensures "latest" in m && m["latest"] == latest
    ensures forall k :: k in m ==> k == "current" || k == "latest"
  {
    map["current" := current, "latest" := latest]
  }

  /** The assessment returned without consulting the model. */
  function NoImpact(dep: string, current: string, latest: string): (r: ImpactAssessment)
    ensures r.depName == dep && r.impacts == [] && r.overallSeverity == Info && r.warnings == []
    ensures r.summary == "No impact detected for " + dep
  {
    ImpactAssessment(dep, VersionsOf(current, latest), [], "No impact detected for " + dep, Info, [])
  }

  /** The user message sent to the model. */
  function UserPrompt(dep: string, current: string, latest: string, context: string): (p: string)
    ensures EndsWith(p, context)
  {
    var head := "Dependency: " + dep + "\n" + "Current version: " + current + "\n" +
                "Latest version: " + latest + "\n\n";
    assert (head + context)[|head|..] == context;
    head + context
  }

  // ---------------------------------------------------------------------------
  // the context text
  // ---------------------------------------------------------------------------

  function ChangeLine(b: BreakingChange): (l: string)
    ensures OccursAt(l, b.apiName, 4)
  {
    var tail := "** (" + b.changeType.Value() + "): " + b.description;
    assert ("- **" + b.apiName + tail)[4..4 + |b.apiName|] == b.apiName;
    "- **" + b.apiName + tail
  }

  function HintLine(b: BreakingChange): (l: string)
    ensures OccursAt(l, b.migrationHint, 18)
  {
    assert ("  Migration hint: " + b.migrationHint)[18..] == b.migrationHint;
    "  Migration hint: " + b.migrationHint
  }

  /** `{file_path}:{line_number}` */
  function Location(u: CodeUsage): (s: string)
  {
    u.filePath + ":" + IntToString(u.lineNumber)
  }

  function UsageLine(u: CodeUsage): (l: string)
    ensures OccursAt(l, Location(u), 2)
  {
    var tail := " \U{2014} " + u.usageType + " of `" + u.symbol + "`";
    assert ("- " + Location(u) + tail)[2..2 + |Location(u)|] == Location(u);
    "- " + Location(u) + tail
  }

  function SnippetLine(u: CodeUsage): (l: string)
    ensures OccursAt(l, u.codeSnippet, 5)
  {
    assert ("  ```" + u.codeSnippet + "```")[5..5 + |u.codeSnippet|] == u.codeSnippet;
    "  ```" + u.codeSnippet + "```"
  }

  /** The lines of the context, each kind rendered to its text by `Render`. */
  datatype ContextLine =
    | ChangesHeading
    | ChangeItem(change: BreakingChange)
    | HintItem(hinted: BreakingChange)
    | Gap
    | UsagesHeading
    | UsageItem(usage: CodeUsage)
    | SnippetItem(quoted: CodeUsage)

  function Render(l: ContextLine): (s: string)
  {
    match l
    case ChangesHeading => "## Breaking Changes"
    case ChangeItem(b) => ChangeLine(b)
    case HintItem(b) => HintLine(b)
    case Gap => ""
    case UsagesHeading => "## Code Usages"
    case UsageItem(u) => UsageLine(u)
    case SnippetItem(u) => SnippetLine(u)
  }

  /** Two lines per breaking change, in order. */
  function ChangeDoc(bcs: seq<BreakingChange>): (ls: seq<ContextLine>)
    ensures |ls| == 2 * |bcs|
  {
    if |bcs| == 0 then []
    else ChangeDoc(bcs[..|bcs| - 1]) + [ChangeItem(bcs[|bcs| - 1]), HintItem(bcs[|bcs| - 1])]
  }

  /** Two lines per code usage, in order. */
  function UsageDoc(usages: seq<CodeUsage>): (ls: seq<ContextLine>)
    ensures |ls| == 2 * |usages|
  {
    if |usages| == 0 then []
    else UsageDoc(usages[..|usages| - 1]) + [UsageItem(usages[|usages| - 1]), SnippetItem(usages[|usages| - 1])]
  }

  function ContextDoc(bcs: seq<BreakingChange>, usages: seq<CodeUsage>): (ls: seq<ContextLine>)
  {
    [ChangesHeading] + ChangeDoc(bcs) + [Gap, UsagesHeading] + UsageDoc(usages)
  }

  /** The context text: the rendered lines joined by newlines. */
  function ContextText(bcs: seq<BreakingChange>, usages: seq<CodeUsage>): (text: string)
  {
    Join(MapSeq(Render, ContextDoc(bcs, usages)), "\n")
  }

  /** `_build_impact_context`: the lines are collected in order, then rendered and joined. */
  method BuildImpactContext(bcs: seq<BreakingChange>, usages: seq<CodeUsage>) returns (text: string)
    ensures text == ContextText(bcs, usages)
  {
    var lines := [ChangesHeading];
    for i := 0 to |bcs|
      invariant lines == [ChangesHeading] + ChangeDoc(bcs[..i])
    {
      assert bcs[..i + 1][..i] == bcs[..i];
      lines := lines + [ChangeItem(bcs[i]), HintItem(bcs[i])];
    }
    assert bcs[..|bcs|] == bcs;
    lines := lines + [Gap, UsagesHeading];
    ghost var head := lines;
    for j := 0 to |usages|
      invariant lines == head + UsageDoc(usages[..j])
    {
      assert usages[..j + 1][..j] == usages[..j];
      lines := lines + [UsageItem(usages[j]), SnippetItem(usages[j])];
    }
    assert usages[..|usages|] == usages;
    text := Join(MapSeq(Render, lines), "\n");
  }

  // ---------------------------------------------------------------------------
  // the assessment
  // ---------------------------------------------------------------------------

  /** `assess_impact`: no breaking changes or no usages gives the no-impact assessment
      and leaves the model unused; otherwise the model's answer is returned with its
      versions replaced by the arguments. */
  method AssessImpact(dep: string, current: string, latest: string, bcs: seq<BreakingChange>,
                      usages: seq<CodeUsage>, model: string -> ImpactAssessment)
    returns (r: ImpactAssessment)
    ensures r.versions == VersionsOf(current, latest)
    ensures bcs == [] || usages == [] ==> r == NoImpact(dep, current, latest)
    ensures bcs != [] && usages != [] ==>
      var answer := model(UserPrompt(dep, current, latest, ContextText(bcs, usages)));
      r.depName == answer.depName && r.impacts == answer.impacts && r.summary == answer.summary &&
      r.overallSeverity == answer.overallSeverity && r.warnings == answer.warnings
  {
    if bcs == [] || usages == [] {
      return NoImpact(dep, current, latest);
    }
    var context := BuildImpactContext(bcs, usages);
    r := model(UserPrompt(dep, current, latest, context));
    r := r.(versions := VersionsOf(current, latest));
  }

  /** Whatever the path, the assessment reports the versions it was asked about. */
  lemma VersionsReported(current: string, latest: string)
    ensures VersionOr(VersionsOf(current, latest), "current") == current
    ensures VersionOr(VersionsOf(current, latest), "latest") == latest
  {
  }

  // ---------------------------------------------------------------------------
  // the layout of the context
  // ---------------------------------------------------------------------------

  lemma {:induction false} ChangeDocAt(bcs: seq<BreakingChange>, i: nat)
    requires i < |bcs|
    ensures ChangeDoc(bcs)[2 * i] == ChangeItem(bcs[i])
    ensures ChangeDoc(bcs)[2 * i + 1] == HintItem(bcs[i])
    decreases |bcs|
  {
    if i < |bcs| - 1 {
      ChangeDocAt(bcs[..|bcs| - 1], i);
    }
  }

  lemma {:induction false} UsageDocAt(usages: seq<CodeUsage>, j: nat)
    requires j < |usages|
    ensures UsageDoc(usages)[2 * j] == UsageItem(usages[j])
    ensures UsageDoc(usages)[2 * j + 1] == SnippetItem(usages[j])
    decreases |usages|
  {
    if j < |usages| - 1 {
      UsageDocAt(usages[..|usages| - 1], j);
    }
  }

  /** The frame of the context: its heading, the blank line and the usages heading. */
  lemma ContextFrame(bcs: seq<BreakingChange>, usages: seq<CodeUsage>)
    ensures var ls := ContextDoc(bcs, usages);
      |ls| == 3 + 2 * |bcs| + 2 * |usages| &&
      ls[0] == ChangesHeading && ls[1 + 2 * |bcs|] == Gap && ls[2 + 2 * |bcs|] == UsagesHeading
  {
  }

  /** Breaking change `i` holds lines `1 + 2i` and `2 + 2i`, so the changes keep their order. */
  lemma ContextChangeAt(bcs: seq<BreakingChange>, usages: seq<CodeUsage>, i: nat)
    requires i < |bcs|
    ensures ContextDoc(bcs, usages)[1 + 2 * i] == ChangeItem(bcs[i])
    ensures ContextDoc(bcs, usages)[2 + 2 * i] == HintItem(bcs[i])
  {
    ChangeDocAt(bcs, i);
  }

  /** Usage `j` holds the two lines after the usages heading at offset `2j`. */
  lemma ContextUsageAt(bcs: seq<BreakingChange>, usages: seq<CodeUsage>, j: nat)
    requires j < |usages|
    ensures ContextDoc(bcs, usages)[3 + 2 * |bcs| + 2 * j] == UsageItem(usages[j])
    ensures ContextDoc(bcs, usages)[4 + 2 * |bcs| + 2 * j] == SnippetItem(usages[j])
  {
    UsageDocAt(usages, j);
  }

  /** The context text mentions every usage's `file:line` and its snippet. */
  lemma ContextMentionsUsage(bcs: seq<BreakingChange>, usages: seq<CodeUsage>, j: nat)
    requires j < |usages|
    ensures Contains(ContextText(bcs, usages), Location(usages[j]))
    ensures Contains(ContextText(bcs, usages), usages[j].codeSnippet)
  {
    var doc := ContextDoc(bcs, usages);
    var ls := MapSeq(Render, doc);
    var text := Join(ls, "\n");
    var k := 3 + 2 * |bcs| + 2 * j;
    ContextUsageAt(bcs, usages, j);
    MapSeqAt(Render, doc, k);
    MapSeqAt(Render, doc, k + 1);
    JoinContainsPart(ls, "\n", k);
    JoinContainsPart(ls, "\n", k + 1);
    OccursAtContains(ls[k], Location(usages[j]), 2);
    OccursAtContains(ls[k + 1], usages[j].codeSnippet, 5);
    ContainsTrans(text, ls[k], Location(usages[j]));
    ContainsTrans(text, ls[k + 1], usages[j].codeSnippet);
  }

  /** The context text names every breaking change's API and carries its migration hint. */
  lemma ContextMentionsChange(bcs: seq<BreakingChange>, usages: seq<CodeUsage>, i: nat)
    requires i < |bcs|
    ensures Contains(ContextText(bcs, usages), bcs[i].apiName)
    ensures Contains(ContextText(bcs, usages), bcs[i].migrationHint)
  {
    var doc := ContextDoc(bcs, usages);
    var ls := MapSeq(Render, doc);
    var text := Join(ls, "\n");
    var k := 1 + 2 * i;
    ContextChangeAt(bcs, usages, i);
    MapSeqAt(Render, doc, k);
    MapSeqAt(Render, doc, k + 1);
    JoinContainsPart(ls, "\n", k);
    JoinContainsPart(ls, "\n", k + 1);
    OccursAtContains(ls[k], bcs[i].apiName, 4);
    OccursAtContains(ls[k + 1], bcs[i].migrationHint, 18);
    ContainsTrans(text, ls[k], bcs[i].apiName);
    ContainsTrans(text, ls[k + 1], bcs[i].migrationHint);
  }
}
