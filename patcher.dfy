/** Patch generation: which assessments are handed to the language model, the prompt each
    one gets, and the impacts context inside that prompt. The model is a parameter: a
    function from the user prompt to a patch set, or to `None` when the call raises. */
module Patcher {
  import opened Wrappers
  import opened Text
  import opened Schemas

  // ---------------------------------------------------------------------------
  // the impacts context
  // ---------------------------------------------------------------------------

  /** The lines of the impacts context, each kind rendered to its text by `Render`. */
  datatype ContextLine =
    | AssessmentHeading
    | SummaryItem(summary: string)
    | OverallItem(overall: Severity)
    | Gap
    | ImpactHeading(change: string)
    | SeverityItem(severity: Severity)
    | ExplanationItem(explanation: string)
    | FixItem(fix: string)
    | AffectedItem(usages: seq<string>)

  /** A `- name: value` bullet; its third character is the first of `name`. */
  function Item(name: string, value: string): (l: string)
    requires name != []
    ensures |l| > 2 && l[0] == '-' && l[2] == name[0]
  {
    "- " + name + ": " + value
  }

  function Render(l: ContextLine): (s: string)
  {
    match l
    case AssessmentHeading => "## Impact Assessment"
    case SummaryItem(s) => "**Summary:** " + s
    case OverallItem(sev) => "**Overall Severity:** " + sev.Value()
    case Gap => ""
    case ImpactHeading(bc) => "### " + bc
    case SeverityItem(sev) => Item("Severity", sev.Value())
    case ExplanationItem(e) => Item("Explanation", e)
    case FixItem(f) => Item("Suggested fix", f)
    case AffectedItem(us) => Item("Affected files", Join(us, ", "))
  }

  /** The "Affected files" bullet is the only line of the context that opens with `- A`. */
  predicate IsAffectedLine(s: string) {
    |s| > 2 && s[0] == '-' && s[2] == 'A'
  }

  function HeaderDoc(a: ImpactAssessment): (ls: seq<ContextLine>)
  {
    [AssessmentHeading, SummaryItem(a.summary), OverallItem(a.overallSeverity), Gap]
  }

  function AffectedDoc(usages: seq<string>): (ls: seq<ContextLine>)
  {
    if usages == [] then [] else [AffectedItem(usages)]
  }

  /** The block of one impact: its heading, three bullets, the optional affected files,
      and a blank line. */
  function ImpactBlock(i: ImpactItem): (ls: seq<ContextLine>)
  {
    [ImpactHeading(i.breakingChange), SeverityItem(i.severity), ExplanationItem(i.explanation),
     FixItem(i.suggestedFix)] + AffectedDoc(i.affectedUsages) + [Gap]
  }

  function ImpactsDoc(a: ImpactAssessment): (ls: seq<ContextLine>)
  {
    HeaderDoc(a) + FlatMap(ImpactBlock, a.impacts)
  }

  /** The impacts context: the rendered lines joined by newlines. */
  function ImpactsText(a: ImpactAssessment): (text: string)
  {
    Join(MapSeq(Render, ImpactsDoc(a)), "\n")
  }

  /** `_build_impacts_context`: the header, then one block per impact, in order. */
  method BuildImpactsContext(a: ImpactAssessment) returns (text: string)
    ensures text == ImpactsText(a)
  {
    var lines := [AssessmentHeading, SummaryItem(a.summary), OverallItem(a.overallSeverity), Gap];
    for k := 0 to |a.impacts|
      invariant lines == HeaderDoc(a) + FlatMap(ImpactBlock, a.impacts[..k])
    {
      var i := a.impacts[k];
      var block := [ImpactHeading(i.breakingChange), SeverityItem(i.severity),
                    ExplanationItem(i.explanation), FixItem(i.suggestedFix)];
      if i.affectedUsages != [] {
        block := block + [AffectedItem(i.affectedUsages)];
      }
      block := block + [Gap];
      assert block == ImpactBlock(i);
      FlatMapSnoc(ImpactBlock, a.impacts, k);
      Assoc(HeaderDoc(a), FlatMap(ImpactBlock, a.impacts[..k]), ImpactBlock(i));
      lines := lines + block;
    }
    assert a.impacts[..|a.impacts|] == a.impacts;
    text := Join(MapSeq(Render, lines), "\n");
  }

  // ---------------------------------------------------------------------------
  // the layout of the impacts context
  // ---------------------------------------------------------------------------

  /** The context opens with the heading, the summary and the overall severity, then a
      blank line, whatever the impacts. */
  lemma ContextOpening(a: ImpactAssessment)
    ensures |ImpactsDoc(a)| >= 4
    ensures ImpactsDoc(a)[0] == AssessmentHeading && ImpactsDoc(a)[1] == SummaryItem(a.summary)
    ensures ImpactsDoc(a)[2] == OverallItem(a.overallSeverity) && ImpactsDoc(a)[3] == Gap
  {
  }

  /** Every block opens with the impact's heading, has five lines plus one when there are
      affected usages, and ends with a blank line. */
  lemma BlockShape(i: ImpactItem)
    ensures |ImpactBlock(i)| == if i.affectedUsages == [] then 5 else 6
    ensures ImpactBlock(i)[0] == ImpactHeading(i.breakingChange)
    ensures ImpactBlock(i)[|ImpactBlock(i)| - 1] == Gap
  {
  }

  /** Impact `k`'s block follows the blocks of the impacts before it: the impacts keep
      their order. */
  lemma BlockAt(a: ImpactAssessment, k: nat)
    requires k < |a.impacts|
    ensures var start := 4 + |FlatMap(ImpactBlock, a.impacts[..k])|;
      start + |ImpactBlock(a.impacts[k])| <= |ImpactsDoc(a)| &&
      ImpactsDoc(a)[start..start + |ImpactBlock(a.impacts[k])|] == ImpactBlock(a.impacts[k])
  {
    var xs := a.impacts;
    var f0 := FlatMap(ImpactBlock, xs[..k]);
    var b := ImpactBlock(xs[k]);
    var post := FlatMap(ImpactBlock, xs[k + 1..]);
    assert xs == xs[..k] + ([xs[k]] + xs[k + 1..]);
    FlatMapAppend(ImpactBlock, xs[..k], [xs[k]] + xs[k + 1..]);
    FlatMapAppend(ImpactBlock, [xs[k]], xs[k + 1..]);
    assert FlatMap(ImpactBlock, [xs[k]]) == b by {
      assert [xs[k]][..0] == [];
    }
    Regroup(HeaderDoc(a), f0, b, post);
    Assoc(f0, b, post);
    SliceMiddle(HeaderDoc(a) + f0, b, post);
  }

  /** Only the "Affected files" bullet renders to a line opening with `- A`. */
  lemma AffectedLineText(l: ContextLine)
    ensures IsAffectedLine(Render(l)) <==> l.AffectedItem?
  {
    match l
    case AssessmentHeading =>
      assert Render(l)[0] == '#';
    case SummaryItem(s) =>
      assert Render(l)[0] == '*';
    case OverallItem(sev) =>
      assert Render(l)[0] == '*';
    case Gap =>
    case ImpactHeading(bc) =>
      assert Render(l)[0] == '#';
    case SeverityItem(sev) =>
    case ExplanationItem(e) =>
    case FixItem(f) =>
    case AffectedItem(us) =>
  }

  /** A block has an "Affected files" line exactly when the impact has affected usages. */
  lemma AffectedIffUsages(i: ImpactItem)
    ensures (exists k :: 0 <= k < |ImpactBlock(i)| && ImpactBlock(i)[k].AffectedItem?) <==>
            i.affectedUsages != []
  {
    if i.affectedUsages != [] {
      assert ImpactBlock(i)[4].AffectedItem?;
    }
  }

  /** The same, stated on the rendered text of the block. */
  lemma AffectedTextIffUsages(i: ImpactItem)
    ensures (exists k :: 0 <= k < |ImpactBlock(i)| && IsAffectedLine(MapSeq(Render, ImpactBlock(i))[k])) <==>
            i.affectedUsages != []
  {
    var b := ImpactBlock(i);
    var ts := MapSeq(Render, b);
    AffectedIffUsages(i);
    forall k | 0 <= k < |b|
      ensures IsAffectedLine(ts[k]) <==> b[k].AffectedItem?
    {
      MapSeqAt(Render, b, k);
      AffectedLineText(b[k]);
    }
  }

  // ---------------------------------------------------------------------------
  // the prompt and the patch sets
  // ---------------------------------------------------------------------------

  /** The user message for one assessment; a version missing from the assessment is
      written as `?`. */
  function PatchPrompt(projectPath: string, a: ImpactAssessment, context: string): (p: string)
  {
    PromptHead(projectPath, a.depName, VersionOr(a.versions, "current"), VersionOr(a.versions, "latest")) +
    context
  }

  function PromptHead(projectPath: string, dep: string, current: string, latest: string): (h: string)
  {
    "Project path: " + projectPath + "\n" + "Dependency: " + dep + "\n" +
    "Current version: " + current + "\n" + "Latest version: " + latest + "\n\n"
  }

  /** The prompt ends with the context and carries the versions, with `?` for a missing one. */
  lemma PromptVersions(projectPath: string, a: ImpactAssessment, context: string)
    ensures EndsWith(PatchPrompt(projectPath, a, context), context)
    ensures "current" !in a.versions ==>
      PatchPrompt(projectPath, a, context) ==
      PromptHead(projectPath, a.depName, "?", VersionOr(a.versions, "latest")) + context
    ensures "latest" !in a.versions ==>
      PatchPrompt(projectPath, a, context) ==
      PromptHead(projectPath, a.depName, VersionOr(a.versions, "current"), "?") + context
  {
    var h := PromptHead(projectPath, a.depName, VersionOr(a.versions, "current"), VersionOr(a.versions, "latest"));
    assert (h + context)[|h|..] == context;
  }

  /** `_generate_patch_for_dep`: the model's answer to the prompt built from the context,
      `None` when the model call raises once instructor's retries run out. */
  method GeneratePatch(a: ImpactAssessment, projectPath: string, model: string -> Option<PatchSet>)
    returns (ps: Option<PatchSet>)
    ensures ps == model(PatchPrompt(projectPath, a, ImpactsText(a)))
  {
    var context := BuildImpactsContext(a);
    ps := model(PatchPrompt(projectPath, a, context));
  }

  /** The assessments that have impacts, in their input order. */
  function WithImpacts(assessments: seq<ImpactAssessment>): (r: seq<ImpactAssessment>)
    ensures |r| <= |assessments|
    ensures forall k :: 0 <= k < |r| ==> r[k].impacts != []
  {
    if |assessments| == 0 then []
    else
      var init := WithImpacts(assessments[..|assessments| - 1]);
      var last := assessments[|assessments| - 1];
      if last.impacts != [] then init + [last] else init
  }

  /** The model's answer for one assessment. */
  function PatchFor(projectPath: string, model: string -> Option<PatchSet>, a: ImpactAssessment): (ps: Option<PatchSet>)
  {
    model(PatchPrompt(projectPath, a, ImpactsText(a)))
  }

  /** The answers for `impacted`, one each in order, or `None` when any answer is `None`. */
  function PatchAll(answer: ImpactAssessment -> Option<PatchSet>, impacted: seq<ImpactAssessment>):
    (r: Option<seq<PatchSet>>)
    decreases |impacted|
  {
    if |impacted| == 0 then Some([])
    else
      var rest := PatchAll(answer, impacted[..|impacted| - 1]);
      var p := answer(impacted[|impacted| - 1]);
      if rest.None? || p.None? then None else Some(rest.value + [p.value])
  }

  /** The patch sets fail exactly when the model raises for some assessment, and
      otherwise hold the model's answer for each one, in order. */
  lemma {:induction false} PatchAllFacts(answer: ImpactAssessment -> Option<PatchSet>, impacted: seq<ImpactAssessment>)
    ensures PatchAll(answer, impacted).None? <==> exists k :: 0 <= k < |impacted| && answer(impacted[k]).None?
    ensures PatchAll(answer, impacted).Some? ==> |PatchAll(answer, impacted).value| == |impacted|
    ensures PatchAll(answer, impacted).Some? ==>
      forall k :: 0 <= k < |impacted| ==> answer(impacted[k]) == Some(PatchAll(answer, impacted).value[k])
    decreases |impacted|
  {
    if |impacted| > 0 {
      var init := impacted[..|impacted| - 1];
      PatchAllFacts(answer, init);
      assert forall k :: 0 <= k < |init| ==> init[k] == impacted[k];
    }
  }

  /** `generate_patches`: one patch set per assessment with impacts, in order; a model
      call that raises ends it with no result. */
  method GeneratePatches(assessments: seq<ImpactAssessment>, projectPath: string,
                         model: string -> Option<PatchSet>)
    returns (patches: Option<seq<PatchSet>>)
    ensures patches == PatchAll(a => PatchFor(projectPath, model, a), WithImpacts(assessments))
  {
    if assessments == [] {
      return Some([]);
    }
    ghost var f := a => PatchFor(projectPath, model, a);
    var done: seq<PatchSet> := [];
    for k := 0 to |assessments|
      invariant PatchAll(f, WithImpacts(assessments[..k])) == Some(done)
    {
      assert assessments[..k + 1][..k] == assessments[..k];
      if assessments[k].impacts != [] {
        var ps := GeneratePatch(assessments[k], projectPath, model);
        assert ps == f(assessments[k]);
        if ps.None? {
          WithImpactsMembership(assessments, assessments[k]);
          var w := WithImpacts(assessments);
          var j :| 0 <= j < |w| && w[j] == assessments[k];
          PatchAllFacts(f, w);
          return None;
        }
        done := done + [ps.value];
      }
    }
    assert assessments[..|assessments|] == assessments;
    return Some(done);
  }

  // ---------------------------------------------------------------------------
  // which assessments get patches
  // ---------------------------------------------------------------------------

  /** No assessments, no patch sets. */
  lemma NoAssessmentsNoPatches(projectPath: string, model: string -> Option<PatchSet>)
    ensures PatchAll(a => PatchFor(projectPath, model, a), WithImpacts([])) == Some([])
  {
  }

  /** An assessment gets a patch set exactly when it has impacts. */
  lemma {:induction false} WithImpactsMembership(assessments: seq<ImpactAssessment>, a: ImpactAssessment)
    ensures a in WithImpacts(assessments) <==> a in assessments && a.impacts != []
    decreases |assessments|
  {
    if |assessments| > 0 {
      var init := assessments[..|assessments| - 1];
      WithImpactsMembership(init, a);
      assert assessments == init + [assessments[|assessments| - 1]];
    }
  }

  /** The patched assessments keep their input order. */
  lemma {:induction false} WithImpactsSubsequence(assessments: seq<ImpactAssessment>)
    ensures IsSubsequence(WithImpacts(assessments), assessments)
    decreases |assessments|
  {
    if assessments != [] {
      var init := assessments[..|assessments| - 1];
      var r := WithImpacts(init);
      WithImpactsSubsequence(init);
      if assessments[|assessments| - 1].impacts != [] {
        assert (r + [assessments[|assessments| - 1]])[..|r|] == r;
      }
    }
  }

  /** When every assessment has impacts, every one gets a patch set. */
  lemma {:induction false} AllImpactedAllPatched(assessments: seq<ImpactAssessment>)
    requires forall k :: 0 <= k < |assessments| ==> assessments[k].impacts != []
    ensures WithImpacts(assessments) == assessments
    decreases |assessments|
  {
    if |assessments| > 0 {
      var init := assessments[..|assessments| - 1];
      AllImpactedAllPatched(init);
      assert assessments == init + [assessments[|assessments| - 1]];
    }
  }
}
