/** Recognition of changelog version headers: the version a line names, and whether
    its markup places it at a header position.  Every regular expression of the
    recogniser is written out as the deterministic scan that Python's leftmost,
    greedy matcher performs on it. */
module ChangelogHeader {
  import opened Wrappers
  import opened Text
  import Versions

  /** U+2013, the en dash accepted beside `-`. */
  const EnDash: char := '–'

  predicate IsDash(c: char) {
    c == '-' || c == EnDash
  }

  /** The class `[\d\-]`. */
  predicate IsDigitOrDash(c: char) {
    IsDigit(c) || c == '-'
  }

  /** The class `[]* ]`. */
  predicate IsBracketStarSpace(c: char) {
    c == ']' || c == '*' || c == ' '
  }

  predicate IsRuleChar(c: char) {
    c == '-' || c == '='
  }

  /** `re.fullmatch(r"[-=]{3,}", t)`: an RST setext underline. */
  predicate IsUnderline(t: string) {
    |t| >= 3 && AllChars(t, IsRuleChar)
  }

  /** `\d+\.\d+(?:\.\d+)?` as a whole string: two or three non-empty digit groups. */
  predicate IsVersionShape(v: string) {
    var g := Split(v, '.');
    (|g| == 2 || |g| == 3) && forall j :: 0 <= j < |g| ==> |g[j]| > 0 && AllChars(g[j], IsDigit)
  }

  // ---------------------------------------------------------------------------
  // the steps of _parse_version_from_line
  // ---------------------------------------------------------------------------

  /** Fullmatch of `\*{1,2}`: the suffix removed by `re.sub(r"\*{1,2}$", "", s)`. */
  predicate IsStarTail(t: string) {
    t == "*" || t == "**"
  }

  /** `re.match(r"^([A-Za-z]\w{0,29})\s+(.*)", s)`: group 2 when the line starts with a
      word of at most 30 word characters, led by a letter and followed by whitespace.
      `.` stops at a newline. */
  function PrefixWordRest(s: string): (g: Option<string>)
    ensures g.Some? ==> Contains(s, g.value)
  {
    if |s| > 0 && IsLetter(s[0]) then
      var w := LeadRun(s, IsWordChar);
      if w <= 30 && w < |s| && IsSpace(s[w]) then
        var j := w + LeadRun(s[w..], IsSpace);
        var g := Before(s[j..], '\n');
        assert g == s[j..j + |g|];
        SliceContained(s, j, j + |g|);
        Some(g)
      else None
    else None
  }

  /** The leading `v`/`V` before a digit, dropped. */
  function DropVBeforeDigit(s: string): (r: string)
    ensures Contains(s, r)
  {
    if |s| > 1 && (s[0] == 'v' || s[0] == 'V') && IsDigit(s[1]) then
      SuffixContained(s, 1);
      s[1..]
    else
      ContainsSelf(s);
      s
  }

  /** `s.strip()`, with the fact that the result occurs in `s`. */
  function StripIn(s: string): (r: string)
    ensures r == Strip(s) && Contains(s, r)
  {
    StripContained(s);
    Strip(s)
  }

  /** `s.strip()` after `re.sub(r"^c{1,n}", "", s)`. */
  function DropAndStrip(s: string, c: char, n: nat): (r: string)
    ensures Contains(s, r)
  {
    var d := DropLeadingUpTo(s, c, n);
    SuffixContained(s, |s| - |d|);
    StripContained(d);
    ContainsTrans(s, d, Strip(d));
    Strip(d)
  }

  /** Outer whitespace, up to six `#`, up to two leading and two trailing `*`, and a
      `[`, removed. */
  function StripMarkup(line: string): (s: string)
    ensures Contains(line, s)
  {
    var s1 := StripIn(line);
    var s2 := DropAndStrip(s1, '#', 6);
    ContainsTrans(line, s1, s2);
    var s3 := DropAndStrip(s2, '*', 2);
    ContainsTrans(line, s2, s3);
    var t := RemoveSuffixMatch(s3, IsStarTail);
    SliceContained(s3, 0, |t|);
    assert s3[0..|t|] == t;
    ContainsTrans(line, s3, t);
    var s4 := StripIn(t);
    ContainsTrans(line, t, s4);
    var s5 := DropAndStrip(s4, '[', 1);
    ContainsTrans(line, s4, s5);
    s5
  }

  /** The one-word prefix, when there is one, dropped. */
  function DropPrefixWord(s: string): (r: string)
    ensures Contains(s, r)
  {
    match PrefixWordRest(s)
    case Some(g) => ContainsTrans(s, g, StripIn(g)); StripIn(g)
    case None => ContainsSelf(s); s
  }

  /** An optional one-word prefix, a `v` before a digit, then `[` and `]`, removed. */
  function StripPrefix(s5: string): (s: string)
    ensures Contains(s5, s)
  {
    var s6 := DropPrefixWord(s5);
    var s7 := DropVBeforeDigit(s6);
    ContainsTrans(s5, s6, s7);
    var s8 := DropAndStrip(s7, '[', 1);
    ContainsTrans(s5, s7, s8);
    var s9 := DropAndStrip(s8, ']', 1);
    ContainsTrans(s5, s8, s9);
    s9
  }

  /** The text of a line once the markup around a version is removed; it occurs in the line. */
  function CleanHeaderText(line: string): (s: string)
    ensures Contains(line, s)
  {
    var s5 := StripMarkup(line);
    var s9 := StripPrefix(s5);
    ContainsTrans(line, s5, s9);
    s9
  }

  /** `_VERSION_RE.match(s)`, `^(\d+\.\d+(?:\.\d+)?)`: the end of the match. */
  function VersionEnd(s: string): (e: Option<nat>)
    ensures e.Some? ==> e.value <= |s|
  {
    var d1 := RunEnd(s, IsDigit, 0);
    if 0 < d1 < |s| && s[d1] == '.' && RunEnd(s, IsDigit, d1 + 1) > d1 + 1 then
      var e2 := RunEnd(s, IsDigit, d1 + 1);
      if e2 < |s| && s[e2] == '.' && RunEnd(s, IsDigit, e2 + 1) > e2 + 1 then
        Some(RunEnd(s, IsDigit, e2 + 1))
      else
        Some(e2)
    else None
  }

  /** What `_VERSION_RE` matches has the shape of a version. */
  lemma VersionEndShape(s: string)
    requires VersionEnd(s).Some?
    ensures IsVersionShape(s[..VersionEnd(s).value])
  {
    var d1 := RunEnd(s, IsDigit, 0);
    var e2 := RunEnd(s, IsDigit, d1 + 1);
    RunChars(s, IsDigit, 0, d1);
    assert s[0..d1] == s[..d1];
    RunChars(s, IsDigit, d1 + 1, e2);
    if e2 < |s| && s[e2] == '.' && RunEnd(s, IsDigit, e2 + 1) > e2 + 1 {
      var e3 := RunEnd(s, IsDigit, e2 + 1);
      assert VersionEnd(s).value == e3;
      RunChars(s, IsDigit, e2 + 1, e3);
      VersionThree(s, d1, e2, e3);
    } else {
      assert VersionEnd(s).value == e2;
      VersionTwo(s, d1, e2);
    }
  }

  lemma VersionTwo(s: string, d1: nat, e2: nat)
    requires 0 < d1 < e2 - 1 && e2 <= |s| && s[d1] == '.'
    requires AllChars(s[..d1], IsDigit) && AllChars(s[d1 + 1..e2], IsDigit)
    ensures IsVersionShape(s[..e2])
  {
    assert s[..e2] == s[..d1] + "." + s[d1 + 1..e2];
    TwoGroups(s[..d1], s[d1 + 1..e2]);
  }

  lemma VersionThree(s: string, d1: nat, e2: nat, e3: nat)
    requires 0 < d1 < e2 - 1 && e2 < e3 - 1 && e3 <= |s| && s[d1] == '.' && s[e2] == '.'
    requires AllChars(s[..d1], IsDigit) && AllChars(s[d1 + 1..e2], IsDigit)
    requires AllChars(s[e2 + 1..e3], IsDigit)
    ensures IsVersionShape(s[..e3])
  {
    assert s[..e3] == s[..d1] + "." + s[d1 + 1..e2] + "." + s[e2 + 1..e3];
    ThreeGroups(s[..d1], s[d1 + 1..e2], s[e2 + 1..e3]);
  }

  lemma TwoGroups(a: string, b: string)
    requires |a| > 0 && |b| > 0 && AllChars(a, IsDigit) && AllChars(b, IsDigit)
    ensures IsVersionShape(a + "." + b)
  {
    assert '.' !in a && '.' !in b by {
      assert !IsDigit('.');
    }
    assert Join([a, b], ".") == a + "." + b;
    SplitJoin([a, b], '.');
  }

  lemma ThreeGroups(a: string, b: string, c: string)
    requires |a| > 0 && |b| > 0 && |c| > 0
    requires AllChars(a, IsDigit) && AllChars(b, IsDigit) && AllChars(c, IsDigit)
    ensures IsVersionShape(a + "." + b + "." + c)
  {
    assert '.' !in a && '.' !in b && '.' !in c by {
      assert !IsDigit('.');
    }
    assert Join([a, b, c], ".") == a + "." + b + "." + c;
    SplitJoin([a, b, c], '.');
  }

  /** `re.sub(r"^[-–]\s*\d{4}[\d\-]*\s*", "", r).strip()`: a dash and a date. */
  function DropDashDate(r: string): (t: string)
  {
    if |r| > 0 && IsDash(r[0]) then
      var j := 1 + LeadRun(r[1..], IsSpace);
      if j + 4 <= |r| && AllChars(r[j..j + 4], IsDigit) then
        var k := j + 4 + LeadRun(r[j + 4..], IsDigitOrDash);
        Strip(r[k..])
      else Strip(r)
    else Strip(r)
  }

  /** `re.sub(r"^\(\d{4}[\d\-]*\)\s*", "", r).strip()`: a parenthesised date. */
  function DropParenDate(r: string): (t: string)
  {
    if 5 <= |r| && r[0] == '(' && AllChars(r[1..5], IsDigit) then
      var k := 5 + LeadRun(r[5..], IsDigitOrDash);
      if k < |r| && r[k] == ')' then Strip(r[k + 1..]) else Strip(r)
    else Strip(r)
  }

  /** What follows the version once `]`, `*`, spaces, a dash date and a parenthesised
      date are removed. */
  function Leftover(rest: string): (t: string)
  {
    var r0 := Strip(rest);
    var r1 := Strip(r0[LeadRun(r0, IsBracketStarSpace)..]);
    DropParenDate(DropDashDate(r1))
  }

  /** `_parse_version_from_line`: the version a line names, if naming a version is what
      the line is for. */
  function ParseVersionFromLine(line: string): (v: Option<string>)
    ensures v.Some? ==> IsVersionShape(v.value)
  {
    var s := CleanHeaderText(line);
    match VersionEnd(s)
    case None => None
    case Some(e) =>
      VersionEndShape(s);
      if WordCount(Leftover(s[e..])) > 2 then None else Some(s[..e])
  }

  /** The version is a substring of the line. */
  lemma ParsedVersionInLine(line: string)
    requires ParseVersionFromLine(line).Some?
    ensures Contains(line, ParseVersionFromLine(line).value)
  {
    var s := CleanHeaderText(line);
    var e := VersionEnd(s).value;
    SliceContained(s, 0, e);
    assert s[0..e] == s[..e];
    ContainsTrans(line, s, s[..e]);
  }

  /** Every version of this shape is a valid release for the version comparison. */
  lemma VersionShapeParses(v: string)
    requires IsVersionShape(v)
    ensures Versions.ParseRelease(v).Some?
    ensures |Versions.ParseRelease(v).value| == 2 || |Versions.ParseRelease(v).value| == 3
  {
    VersionStartsWithDigit(v);
    Versions.LStripOfNonSpace(v);
    Versions.RStripOfNonSpace(v);
    assert Strip(v) == v;
    assert Versions.DropV(v) == v;
    assert Versions.IsDottedDigits(v);
  }

  lemma {:induction false} JoinFirstLast(g: seq<string>)
    requires |g| >= 1 && forall j :: 0 <= j < |g| ==> |g[j]| > 0
    ensures |Join(g, ".")| > 0
    ensures Join(g, ".")[0] == g[0][0]
    ensures Join(g, ".")[|Join(g, ".")| - 1] == g[|g| - 1][|g[|g| - 1]| - 1]
    decreases |g|
  {
    if |g| > 1 {
      if |g| > 2 {
        JoinFirstLast(g[1..]);
      } else {
        assert Join(g[1..], ".") == g[1];
      }
      assert Join(g, ".") == g[0] + "." + Join(g[1..], ".");
    }
  }

  /** A version starts and ends with a digit. */
  lemma VersionStartsWithDigit(v: string)
    requires IsVersionShape(v)
    ensures |v| > 0 && IsDigit(v[0]) && IsDigit(v[|v| - 1])
  {
    var g := Split(v, '.');
    JoinSplit(v, '.');
    assert AllChars(g[0], IsDigit) && AllChars(g[|g| - 1], IsDigit);
    JoinFirstLast(g);
  }

  /** A string with a digit inside, once stripped, is not an underline. */
  lemma DigitBlocksUnderline(s: string, i: int)
    requires 0 <= i < |s| && IsDigit(s[i])
    ensures !IsUnderline(Strip(s))
  {
    NonSpaceSurvivesStrip(s, i);
    var t := Strip(s);
    var k :| 0 <= k < |t| && t[k] == s[i];
    assert !IsRuleChar(t[k]);
  }

  /** A version contains a digit, so the line that carries it is never an underline. */
  lemma VersionLineIsNotUnderline(line: string)
    requires ParseVersionFromLine(line).Some?
    ensures !IsUnderline(Strip(line))
  {
    ParsedVersionInLine(line);
    ContainedVersionBlocksUnderline(line, ParseVersionFromLine(line).value);
  }

  lemma ContainedVersionBlocksUnderline(line: string, v: string)
    requires IsVersionShape(v) && Contains(line, v)
    ensures !IsUnderline(Strip(line))
  {
    VersionStartsWithDigit(v);
    var i :| 0 <= i <= |line| && OccursAt(line, v, i);
    assert line[i..i + |v|][0] == line[i];
    DigitBlocksUnderline(line, i);
  }

  // ---------------------------------------------------------------------------
  // _is_header_position
  // ---------------------------------------------------------------------------

  /** Fullmatch of `\s*\([\d\-]+\)\s*`. */
  predicate IsParenDateTail(t: string) {
    var v := RStrip(LStrip(t));
    |v| >= 3 && v[0] == '(' && v[|v| - 1] == ')' && AllChars(v[1..|v| - 1], IsDigitOrDash)
  }

  /** Fullmatch of `\s*[-–]\s*[\d\-]+\s*`. */
  predicate IsDashDateTail(t: string) {
    var u := LStrip(t);
    |u| >= 1 && IsDash(u[0]) &&
    var w := RStrip(LStrip(u[1..]));
    |w| >= 1 && AllChars(w, IsDigitOrDash)
  }

  /** A Markdown ATX heading: `re.match(r"^#{1,6}\s", raw)`. */
  predicate IsAtxHeading(raw: string) {
    var k := LeadRun(raw, c => c == '#');
    1 <= k <= 6 && k < |raw| && IsSpace(raw[k])
  }

  /** A bold wrapper: `re.match(r"^\*{1,2}[^*\s]", stripped)`. */
  predicate IsBoldStart(stripped: string) {
    var k := LeadRun(stripped, c => c == '*');
    1 <= k <= 2 && k < |stripped| && !IsSpace(stripped[k])
  }

  /** A bare version, possibly followed by a date in parentheses or after a dash. */
  predicate IsBareVersion(stripped: string) {
    var b1 := if |stripped| > 0 && stripped[0] == 'v' then stripped[1..] else stripped;
    var b2 := Strip(RemoveSuffixMatch(b1, IsParenDateTail));
    var b3 := Strip(RemoveSuffixMatch(b2, IsDashDateTail));
    IsVersionShape(b3)
  }

  /** `_is_header_position(i, lines)`: line `i` carries header markup. */
  predicate IsHeaderPosition(i: nat, lines: seq<string>)
    requires i < |lines|
  {
    var raw := lines[i];
    var stripped := Strip(raw);
    IsAtxHeading(raw) ||
    IsBoldStart(stripped) ||
    (i + 1 < |lines| && IsUnderline(Strip(lines[i + 1]))) ||
    (IsBareVersion(stripped) && (i == 0 || Strip(lines[i - 1]) == ""))
  }

  // ---------------------------------------------------------------------------
  // the header forms that are recognised
  // ---------------------------------------------------------------------------

  /** A word that `PrefixWordRest` takes as a prefix: a letter, then word characters,
      thirty at most. */
  predicate IsPrefixWord(w: string) {
    1 <= |w| <= 30 && IsLetter(w[0]) && AllChars(w, IsWordChar)
  }

  /** What may follow the version on its line: nothing that continues the version, no
      line break, and no whitespace or star at its end. */
  predicate IsVersionTail(rest: string) {
    '\n' !in rest &&
    (rest == [] || (!IsDigit(rest[0]) && rest[0] != '.' && !IsSpace(rest[|rest| - 1]) && rest[|rest| - 1] != '*'))
  }

  /** A version line assembled from its parts: `h` hashes and a space, `b` stars, an
      optional `[`, an optional prefix word and a space, an optional `v`, the version,
      and what follows it. */
  function HeaderLine(h: nat, b: nat, bracket: bool, word: string, vee: bool, ver: string, rest: string): string {
    (if h > 0 then Copies('#', h) + " " else "") + Copies('*', b) + (if bracket then "[" else "") +
    ((if word != [] then word + " " else "") + ((if vee then "v" else "") + ver + rest))
  }

  /** `re.sub(r"^c{1,n}", "", s).strip()` removes a run of at most `n` copies of `c` and
      the whitespace after it. */
  lemma DropAndStripCopies(c: char, k: nat, n: nat, sp: string, x: string)
    requires !IsSpace(c) && k <= n && AllChars(sp, IsSpace) && Trimmed(x)
    requires x == [] || x[0] != c
    ensures DropAndStrip(Copies(c, k) + sp + x, c, n) == x
  {
    assert Copies(c, k) + sp + x == Copies(c, k) + (sp + x);
    assert sp != [] ==> (sp + x)[0] == sp[0];
    DropLeadingCopies(c, k, n, sp + x);
    StripLeadingSpaces(sp, x);
  }

  /** The digit groups of a version: two, or three when `c` is not empty. */
  lemma VersionParts(ver: string) returns (a: string, b: string, c: string)
    requires IsVersionShape(ver)
    ensures |a| > 0 && |b| > 0 && AllChars(a, IsDigit) && AllChars(b, IsDigit) && AllChars(c, IsDigit)
    ensures if c == [] then ver == a + "." + b else ver == a + "." + b + "." + c
  {
    var g := Split(ver, '.');
    JoinSplit(ver, '.');
    a, b := g[0], g[1];
    assert g == [g[0]] + g[1..];
    JoinCons(g[0], g[1..], ".");
    if |g| == 2 {
      c := [];
    } else {
      c := g[2];
      assert g[1..] == [g[1]] + g[2..];
      JoinCons(g[1], g[2..], ".");
    }
  }

  /** A version followed by what may follow it is trimmed, starts with a digit, and
      holds no line break and no final star. */
  lemma VersionThenTail(ver: string, rest: string)
    requires IsVersionShape(ver) && IsVersionTail(rest)
    ensures Trimmed(ver + rest) && (ver + rest)[0] == ver[0] && IsDigit(ver[0])
    ensures '\n' !in ver + rest && (ver + rest)[|ver + rest| - 1] != '*'
  {
    VersionStartsWithDigit(ver);
    var a, b, c := VersionParts(ver);
    assert '\n' !in a && '\n' !in b && '\n' !in c by {
      assert !IsDigit('\n');
    }
  }

  /** `_VERSION_RE` matches the whole version when what follows does not continue it. */
  lemma VersionEndOf(ver: string, rest: string)
    requires IsVersionShape(ver) && (rest == [] || (!IsDigit(rest[0]) && rest[0] != '.'))
    ensures VersionEnd(ver + rest) == Some(|ver|)
  {
    var a, b, c := VersionParts(ver);
    if c == [] {
      VersionEndTwo(a, b, rest);
    } else {
      assert ver + rest == a + "." + b + "." + c + rest;
      VersionEndThree(a, b, c, rest);
    }
  }

  lemma VersionEndTwo(a: string, b: string, rest: string)
    requires |a| > 0 && |b| > 0 && AllChars(a, IsDigit) && AllChars(b, IsDigit)
    requires rest == [] || (!IsDigit(rest[0]) && rest[0] != '.')
    ensures VersionEnd(a + "." + b + rest) == Some(|a| + 1 + |b|)
  {
    var s := a + "." + b + rest;
    var e2 := |a| + 1 + |b|;
    assert forall j :: 0 <= j < |a| ==> s[j] == a[j];
    assert s[|a|] == '.';
    RunEndOf(s, IsDigit, 0, |a|);
    assert forall j :: |a| + 1 <= j < e2 ==> s[j] == b[j - |a| - 1];
    assert e2 < |s| ==> s[e2] == rest[0];
    RunEndOf(s, IsDigit, |a| + 1, e2);
  }

  lemma VersionEndThree(a: string, b: string, c: string, rest: string)
    requires |a| > 0 && |b| > 0 && |c| > 0
    requires AllChars(a, IsDigit) && AllChars(b, IsDigit) && AllChars(c, IsDigit)
    requires rest == [] || (!IsDigit(rest[0]) && rest[0] != '.')
    ensures VersionEnd(a + "." + b + "." + c + rest) == Some(|a| + 1 + |b| + 1 + |c|)
  {
    var s := a + "." + b + "." + c + rest;
    var e2 := |a| + 1 + |b|;
    var e3 := e2 + 1 + |c|;
    assert forall j :: 0 <= j < |a| ==> s[j] == a[j];
    assert s[|a|] == '.';
    RunEndOf(s, IsDigit, 0, |a|);
    assert forall j :: |a| + 1 <= j < e2 ==> s[j] == b[j - |a| - 1];
    assert s[e2] == '.';
    RunEndOf(s, IsDigit, |a| + 1, e2);
    assert forall j :: e2 + 1 <= j < e3 ==> s[j] == c[j - e2 - 1];
    assert e3 < |s| ==> s[e3] == rest[0];
    RunEndOf(s, IsDigit, e2 + 1, e3);
  }

  /** Every suffix of a string whose last character is not a star fails `\*{1,2}$`. */
  lemma NoStarTail(x: string)
    requires x == [] || x[|x| - 1] != '*'
    ensures RemoveSuffixMatch(x, IsStarTail) == x
  {
    forall j | 0 <= j <= |x| ensures !IsStarTail(x[j..]) {
      if j < |x| {
        assert x[j..][|x[j..]| - 1] == x[|x| - 1];
      }
    }
    NoSuffixMatch(x, IsStarTail);
  }

  /** `re.sub(r"^c{1,n}", "", s).strip()` on a run of copies of `c` right before a
      trimmed text. */
  lemma DropAndStripLead(c: char, k: nat, n: nat, x: string)
    requires k <= n && Trimmed(x) && (x == [] || x[0] != c)
    ensures DropAndStrip(Copies(c, k) + x, c, n) == x
  {
    DropLeadingCopies(c, k, n, x);
    StripTrimmed(x);
  }

  /** A trimmed text that does not start with `c` is left as it is. */
  lemma DropAndStripNone(c: char, n: nat, x: string)
    requires Trimmed(x) && (x == [] || x[0] != c)
    ensures DropAndStrip(x, c, n) == x
  {
    assert DropLeadingUpTo(x, c, n) == x;
    StripTrimmed(x);
  }

  /** The outer whitespace and a heading mark with its space come off. */
  lemma HeadingLayer(h: nat, y: string)
    requires h <= 6 && Trimmed(y) && y != [] && y[0] != '#'
    ensures var line := (if h > 0 then Copies('#', h) + " " else "") + y;
      Strip(line) == line && DropAndStrip(line, '#', 6) == y
  {
    var line := (if h > 0 then Copies('#', h) + " " else "") + y;
    assert line[|line| - 1] == y[|y| - 1];
    assert line[0] == '#' || line[0] == y[0];
    StripTrimmed(line);
    if h > 0 {
      DropAndStripCopies('#', h, 6, " ", y);
    } else {
      assert line == Copies('#', 0) + y;
      DropAndStripLead('#', 0, 6, y);
    }
  }

  /** `StripMarkup` removes `h` hashes and a space, `b` stars and a `[` from a text that
      does not start with markup of its own. */
  lemma MarkupLayers(h: nat, b: nat, bracket: bool, x: string)
    requires h <= 6 && b <= 2 && Trimmed(x) && x != []
    requires x[0] != '#' && x[0] != '*' && x[0] != '[' && x[|x| - 1] != '*'
    ensures StripMarkup((if h > 0 then Copies('#', h) + " " else "") + Copies('*', b) +
      (if bracket then "[" else "") + x) == x
  {
    var k := if bracket then 1 else 0;
    var afterBracket := Copies('[', k) + x;
    var afterStars := Copies('*', b) + afterBracket;
    var line := (if h > 0 then Copies('#', h) + " " else "") + afterStars;
    assert (if bracket then "[" else "") == Copies('[', k);
    assert (if h > 0 then Copies('#', h) + " " else "") + Copies('*', b) +
      (if bracket then "[" else "") + x == line;
    BracketLayer(k, x);
    StarLayer(b, afterBracket);
    HeadingLayer(h, afterStars);
    StripMarkupOf(line, afterStars, afterBracket, x);
  }

  /** An optional `[` before a trimmed text that starts with no markup: the text stays
      trimmed, keeps its ends, and `re.sub(r"^\[", "", s).strip()` gives the text back. */
  lemma BracketLayer(k: nat, x: string)
    requires k <= 1 && Trimmed(x) && x != []
    requires x[0] != '#' && x[0] != '*' && x[0] != '[' && x[|x| - 1] != '*'
    ensures var y := Copies('[', k) + x;
      Trimmed(y) && y != [] && y[0] != '#' && y[0] != '*' && y[|y| - 1] != '*' &&
      RemoveSuffixMatch(y, IsStarTail) == y && Strip(y) == y && DropAndStrip(y, '[', 1) == x
  {
    var y := Copies('[', k) + x;
    assert y[|y| - 1] == x[|x| - 1];
    assert y[0] == '[' || y[0] == x[0];
    NoStarTail(y);
    StripTrimmed(y);
    DropAndStripLead('[', k, 1, x);
  }

  /** Up to two stars before a trimmed text that starts with neither `#` nor `*`. */
  lemma StarLayer(b: nat, y: string)
    requires b <= 2 && Trimmed(y) && y != [] && y[0] != '#' && y[0] != '*' && y[|y| - 1] != '*'
    ensures var z := Copies('*', b) + y;
      Trimmed(z) && z != [] && z[0] != '#' && DropAndStrip(z, '*', 2) == y
  {
    var z := Copies('*', b) + y;
    if b == 0 {
      assert z == y;
    } else {
      assert z[0] == '*' && z[|z| - 1] == y[|y| - 1];
      assert !IsSpace(z[0]) && !IsSpace(z[|z| - 1]);
    }
    assert Trimmed(z) && z != [] && z[0] != '#';
    DropAndStripLead('*', b, 2, y);
  }

  /** `StripMarkup` composed from its steps. */
  lemma StripMarkupOf(line: string, s2: string, s3: string, s5: string)
    requires Strip(line) == line && DropAndStrip(line, '#', 6) == s2 && DropAndStrip(s2, '*', 2) == s3
    requires RemoveSuffixMatch(s3, IsStarTail) == s3 && Strip(s3) == s3 && DropAndStrip(s3, '[', 1) == s5
    ensures StripMarkup(line) == s5
  {
  }

  /** `StripPrefix` composed from its steps. */
  lemma StripPrefixOf(s5: string, s6: string, s7: string)
    requires DropPrefixWord(s5) == s6 && DropVBeforeDigit(s6) == s7
    requires DropAndStrip(s7, '[', 1) == s7 && DropAndStrip(s7, ']', 1) == s7
    ensures StripPrefix(s5) == s7
  {
  }

  /** A `v` before a digit is dropped; a digit is kept. */
  lemma DropVOf(vee: bool, tail: string)
    requires tail != [] && IsDigit(tail[0])
    ensures DropVBeforeDigit((if vee then "v" else "") + tail) == tail
  {
    if vee {
      var s := "v" + tail;
      assert s[0] == 'v' && s[1] == tail[0] && s[1..] == tail;
    } else {
      assert "" + tail == tail;
    }
  }

  /** A prefix word and the whitespace after it are taken off the rest of the line. */
  lemma PrefixWordTaken(word: string, core: string)
    requires IsPrefixWord(word) && core != [] && !IsSpace(core[0]) && '\n' !in core
    ensures PrefixWordRest(word + " " + core) == Some(core)
  {
    var s := word + " " + core;
    WordRun(word, core);
    SpaceAfterWord(word, core);
    BeforeFacts(core, '\n');
    assert s[0] == word[0];
  }

  /** The run of word characters is the word itself. */
  lemma WordRun(word: string, core: string)
    requires AllChars(word, IsWordChar)
    ensures LeadRun(word + " " + core, IsWordChar) == |word|
  {
    assert word + " " + core == word + (" " + core);
    LeadRunConcat(word, " " + core, IsWordChar);
  }

  /** One space follows the word, and then the rest of the line. */
  lemma SpaceAfterWord(word: string, core: string)
    requires core != [] && !IsSpace(core[0])
    ensures var s := word + " " + core;
      |word| < |s| && IsSpace(s[|word|]) && LeadRun(s[|word|..], IsSpace) == 1 && s[|word| + 1..] == core
  {
    var s := word + " " + core;
    assert s[|word|..] == " " + core;
    LeadRunConcat(" ", core, IsSpace);
  }

  /** A run of word characters that ends anywhere but at whitespace is no prefix word. */
  lemma NoPrefixWordAt(s: string, w: nat)
    requires w < |s| && LeadRun(s, IsWordChar) == w && !IsSpace(s[w])
    ensures PrefixWordRest(s).None?
  {
  }

  /** A version, bare or after `v`, is not a prefix word: the run of word characters at
      its start ends at a dot. */
  lemma VersionIsNoWord(vee: bool, ver: string, rest: string)
    requires IsVersionShape(ver)
    ensures PrefixWordRest((if vee then "v" else "") + ver + rest).None?
  {
    var a, b, c := VersionParts(ver);
    var u := if c == [] then "." + b else "." + b + "." + c;
    assert ver == a + u;
    var t := u + rest;
    assert ver + rest == a + t;
    var v := if vee then "v" else "";
    assert v + ver + rest == v + (a + t);
    DigitsThenDotIsNoWord(v, a, t);
  }

  lemma DigitsThenDotIsNoWord(v: string, a: string, t: string)
    requires AllChars(v, IsWordChar) && AllChars(a, IsDigit) && t != [] && t[0] == '.'
    ensures PrefixWordRest(v + (a + t)).None?
  {
    var s := v + (a + t);
    assert s == (v + a) + t;
    assert AllChars(v + a, IsWordChar);
    LeadRunConcat(v + a, t, IsWordChar);
    assert s[|v + a|] == '.';
    NoPrefixWordAt(s, |v + a|);
  }

  /** The prefix word, when there is one, is dropped; a version is no prefix word. */
  lemma WordLayer(word: string, vee: bool, ver: string, rest: string)
    requires (word == [] || IsPrefixWord(word)) && IsVersionShape(ver) && IsVersionTail(rest)
    ensures var core := (if vee then "v" else "") + ver + rest;
      DropPrefixWord((if word != [] then word + " " else "") + core) == core
  {
    var tail := ver + rest;
    VersionThenTail(ver, rest);
    var core := (if vee then "v" else "") + tail;
    assert core == (if vee then "v" else "") + ver + rest;
    if word != [] {
      assert core[|core| - 1] == tail[|tail| - 1];
      assert core[0] == 'v' || core[0] == tail[0];
      PrefixWordTaken(word, core);
      StripTrimmed(core);
    } else {
      VersionIsNoWord(vee, ver, rest);
      assert [] + core == core;
    }
  }

  /** `StripPrefix` removes a prefix word and a `v`, leaving the version and what
      follows it. */
  lemma PrefixLayers(word: string, vee: bool, ver: string, rest: string)
    requires (word == [] || IsPrefixWord(word)) && IsVersionShape(ver) && IsVersionTail(rest)
    ensures StripPrefix((if word != [] then word + " " else "") + ((if vee then "v" else "") + ver + rest)) ==
      ver + rest
  {
    var tail := ver + rest;
    VersionThenTail(ver, rest);
    var core := (if vee then "v" else "") + tail;
    assert core == (if vee then "v" else "") + ver + rest;
    var line := (if word != [] then word + " " else "") + core;
    assert DropPrefixWord(line) == core by {
      WordLayer(word, vee, ver, rest);
    }
    assert DropVBeforeDigit(core) == tail by {
      DropVOf(vee, tail);
    }
    assert DropAndStrip(tail, '[', 1) == tail && DropAndStrip(tail, ']', 1) == tail by {
      DropAndStripNone('[', 1, tail);
      DropAndStripNone(']', 1, tail);
    }
    StripPrefixOf(line, core, tail);
  }

  /** The markup around a version is removed, leaving the version and what follows it. */
  lemma CleanHeaderLine(h: nat, b: nat, bracket: bool, word: string, vee: bool, ver: string, rest: string)
    requires h <= 6 && b <= 2 && (word == [] || IsPrefixWord(word))
    requires IsVersionShape(ver) && IsVersionTail(rest)
    ensures CleanHeaderText(HeaderLine(h, b, bracket, word, vee, ver, rest)) == ver + rest
  {
    var tail := ver + rest;
    VersionThenTail(ver, rest);
    var core := (if vee then "v" else "") + tail;
    var x := (if word != [] then word + " " else "") + core;
    assert x[|x| - 1] == tail[|tail| - 1];
    assert x[0] == (if word != [] then word[0] else core[0]);
    assert core == (if vee then "v" else "") + ver + rest;
    MarkupLayers(h, b, bracket, x);
    PrefixLayers(word, vee, ver, rest);
  }

  /** The version a header line names: the version itself, unless more than two words
      are left once the markup and a date after it are removed. */
  lemma ParseHeaderLine(h: nat, b: nat, bracket: bool, word: string, vee: bool, ver: string, rest: string)
    requires h <= 6 && b <= 2 && (word == [] || IsPrefixWord(word))
    requires IsVersionShape(ver) && IsVersionTail(rest)
    ensures ParseVersionFromLine(HeaderLine(h, b, bracket, word, vee, ver, rest)) ==
      if WordCount(Leftover(rest)) > 2 then None else Some(ver)
  {
    CleanHeaderLine(h, b, bracket, word, vee, ver, rest);
    VersionEndOf(ver, rest);
    assert (ver + rest)[..|ver|] == ver && (ver + rest)[|ver|..] == rest;
  }

  /** A date: four digits, then digits and dashes. */
  predicate IsDate(d: string) {
    |d| >= 4 && AllChars(d[..4], IsDigit) && AllChars(d, IsDigitOrDash)
  }

  /** Closing brackets, stars and spaces before a text are dropped with the outer
      whitespace. */
  lemma {:induction false} LeftoverAfterRun(pre: string, x: string)
    requires AllChars(pre, IsBracketStarSpace) && Trimmed(x) && x != [] && !IsBracketStarSpace(x[0])
    ensures Leftover(pre + x) == DropParenDate(DropDashDate(x))
  {
    var i := LeadRun(pre, IsSpace);
    var q := pre[i..];
    assert pre + x == pre[..i] + (q + x);
    assert AllChars(pre[..i], IsSpace);
    assert Trimmed(q + x) by {
      assert (q + x)[|q + x| - 1] == x[|x| - 1];
      assert q != [] ==> (q + x)[0] == pre[i];
    }
    StripLeadingSpaces(pre[..i], q + x);
    assert AllChars(q, IsBracketStarSpace);
    LeadRunConcat(q, x, IsBracketStarSpace);
    assert (q + x)[|q|..] == x;
    StripTrimmed(x);
  }

  /** A dash and a date are removed whole. */
  lemma DashDateRemoved(d: string)
    requires IsDate(d)
    ensures DropDashDate("- " + d) == []
  {
    var r := "- " + d;
    assert r[1..] == " " + d;
    LeadRunConcat(" ", d, IsSpace);
    assert r[2..6] == d[..4];
    assert r[6..] == d[4..];
    LeadRunConcat(d[4..], [], IsDigitOrDash);
    assert d[4..] + [] == d[4..];
  }

  /** A parenthesised date is removed whole. */
  lemma ParenDateRemoved(d: string)
    requires IsDate(d)
    ensures DropParenDate(DropDashDate("(" + d + ")")) == []
  {
    var r := "(" + d + ")";
    ParenNoDash(r);
    ParenDateShape(d);
  }

  /** A text in parentheses starts with no dash: only its outer whitespace would go. */
  lemma ParenNoDash(r: string)
    requires |r| >= 2 && r[0] == '(' && r[|r| - 1] == ')'
    ensures DropDashDate(r) == r
  {
    assert Trimmed(r);
    StripTrimmed(r);
  }

  /** In `(date)` the date's four digits and its run of digits and dashes end right at
      the `)`, and nothing follows it. */
  lemma ParenDateShape(d: string)
    requires IsDate(d)
    ensures DropParenDate("(" + d + ")") == []
  {
    var r := "(" + d + ")";
    assert AllChars(r[1..5], IsDigit) by {
      assert r[1..5] == d[..4];
    }
    assert LeadRun(r[5..], IsDigitOrDash) == |d| - 4 by {
      assert r[5..] == d[4..] + ")";
      forall k | 0 <= k < |d| - 4
        ensures IsDigitOrDash(d[4..][k])
      {
        assert d[4..][k] == d[k + 4];
      }
      LeadRunConcat(d[4..], ")", IsDigitOrDash);
    }
    assert r[1 + |d|] == ')' && r[2 + |d|..] == [];
  }

  /** What is left after a version followed by `]`, stars or spaces and then a dash
      date or a parenthesised date is empty. */
  lemma DatedTailEmpty(pre: string, d: string, paren: bool)
    requires AllChars(pre, IsBracketStarSpace) && IsDate(d)
    ensures Leftover(pre + (if paren then "(" + d + ")" else "- " + d)) == []
  {
    var x := if paren then "(" + d + ")" else "- " + d;
    assert x[|x| - 1] == (if paren then ')' else d[|d| - 1]);
    assert IsDigitOrDash(d[|d| - 1]);
    LeftoverAfterRun(pre, x);
    if paren {
      ParenDateRemoved(d);
    } else {
      DashDateRemoved(d);
    }
  }

  /** A text that starts with a letter is left whole. */
  lemma WordsLeftWhole(pre: string, x: string)
    requires AllChars(pre, IsBracketStarSpace) && Trimmed(x) && x != [] && IsLetter(x[0])
    ensures Leftover(pre + x) == x
  {
    LeftoverAfterRun(pre, x);
    StripTrimmed(x);
  }

  /** What follows the version is only `]`, stars and spaces: nothing is left. */
  lemma {:induction false} RunLeftEmpty(pre: string)
    requires AllChars(pre, IsBracketStarSpace)
    ensures Leftover(pre) == []
  {
    var r0 := Strip(pre);
    StripSlice(pre);
    assert AllChars(r0, IsBracketStarSpace) by {
      forall j | 0 <= j < |r0| ensures IsBracketStarSpace(r0[j]) {
        assert r0[j] == pre[StripStart(pre) + j];
      }
    }
    LeadRunConcat(r0, [], IsBracketStarSpace);
    assert r0 + [] == r0;
  }

  // ---------------------------------------------------------------------------
  // the header lines of the test suite
  // ---------------------------------------------------------------------------

  /** A version with a date, or with `]`, stars and spaces only, after it is named by
      every form of header line. */
  lemma DatedHeaderLine(h: nat, b: nat, bracket: bool, word: string, vee: bool, ver: string,
                        pre: string, d: string, paren: bool)
    requires h <= 6 && b <= 2 && (word == [] || IsPrefixWord(word)) && IsVersionShape(ver)
    requires AllChars(pre, IsBracketStarSpace) && IsDate(d)
    ensures ParseVersionFromLine(HeaderLine(h, b, bracket, word, vee, ver,
      pre + (if paren then "(" + d + ")" else "- " + d))) == Some(ver)
  {
    var rest := pre + (if paren then "(" + d + ")" else "- " + d);
    assert IsVersionTail(rest) by {
      var x := if paren then "(" + d + ")" else "- " + d;
      assert rest[|rest| - 1] == x[|x| - 1];
      assert x[|x| - 1] == (if paren then ')' else d[|d| - 1]);
      assert IsDigitOrDash(d[|d| - 1]);
      assert rest[0] == (if pre == [] then x[0] else pre[0]);
      assert '\n' !in pre && '\n' !in x by {
        assert !IsDigitOrDash('\n') && !IsBracketStarSpace('\n');
      }
    }
    ParseHeaderLine(h, b, bracket, word, vee, ver, rest);
    DatedTailEmpty(pre, d, paren);
  }

  /** A version followed only by `]`, stars or spaces is named by every form of header
      line. */
  lemma PlainHeaderLine(h: nat, b: nat, bracket: bool, word: string, vee: bool, ver: string, pre: string)
    requires h <= 6 && b <= 2 && (word == [] || IsPrefixWord(word)) && IsVersionShape(ver)
    requires AllChars(pre, IsBracketStarSpace) && (pre == [] || (pre[|pre| - 1] != ' ' && pre[|pre| - 1] != '*'))
    ensures ParseVersionFromLine(HeaderLine(h, b, bracket, word, vee, ver, pre)) == Some(ver)
  {
    assert IsVersionTail(pre) by {
      assert !IsBracketStarSpace('\n');
    }
    ParseHeaderLine(h, b, bracket, word, vee, ver, pre);
    RunLeftEmpty(pre);
  }

  /** Words after the version: the line names the version iff they are at most two. */
  lemma WordyHeaderLine(h: nat, b: nat, bracket: bool, word: string, vee: bool, ver: string,
                        pre: string, x: string)
    requires h <= 6 && b <= 2 && (word == [] || IsPrefixWord(word)) && IsVersionShape(ver)
    requires AllChars(pre, IsBracketStarSpace) && Trimmed(x) && x != [] && IsLetter(x[0])
    requires '\n' !in x && x[|x| - 1] != '*'
    ensures ParseVersionFromLine(HeaderLine(h, b, bracket, word, vee, ver, pre + x)).None? <==>
      WordCount(x) > 2
  {
    var rest := pre + x;
    MarkupThenWords(pre, x);
    ParseHeaderLine(h, b, bracket, word, vee, ver, rest);
    WordsLeftWhole(pre, x);
  }

  /** Brackets, stars and spaces and then words can follow a version. */
  lemma MarkupThenWords(pre: string, x: string)
    requires AllChars(pre, IsBracketStarSpace) && Trimmed(x) && x != [] && IsLetter(x[0])
    requires '\n' !in x && x[|x| - 1] != '*'
    ensures IsVersionTail(pre + x)
  {
    var rest := pre + x;
    assert rest[|rest| - 1] == x[|x| - 1];
    assert rest[0] == (if pre == [] then x[0] else pre[0]);
    assert '\n' !in pre by {
      assert !IsBracketStarSpace('\n');
    }
  }

  /** A version given by its three groups. */
  lemma VersionOfGroups(v: string, a: string, b: string, c: string)
    requires v == a + "." + b + "." + c && |a| > 0 && |b| > 0 && |c| > 0
    requires AllChars(a, IsDigit) && AllChars(b, IsDigit) && AllChars(c, IsDigit)
    ensures IsVersionShape(v)
  {
    ThreeGroups(a, b, c);
  }

  /** `## v3.0.0` names 3.0.0. */
  lemma VPrefixHeading(line: string)
    requires line == "## v3.0.0"
    ensures ParseVersionFromLine(line) == Some("3.0.0")
  {
    VersionOfGroups("3.0.0", "3", "0", "0");
    VPrefixHeadingAssembled(line);
    PlainHeaderLine(2, 0, false, "", true, "3.0.0", "");
  }

  lemma VPrefixHeadingAssembled(line: string)
    requires line == "## v3.0.0"
    ensures HeaderLine(2, 0, false, "", true, "3.0.0", "") == line
  {
    assert Copies('#', 2) == "##";
  }

  /** `## [2.0.0]` names 2.0.0. */
  lemma BracketHeading(line: string)
    requires line == "## [2.0.0]"
    ensures ParseVersionFromLine(line) == Some("2.0.0")
  {
    VersionOfGroups("2.0.0", "2", "0", "0");
    BracketHeadingAssembled(line);
    ClosingBracketHeading(line, "2.0.0");
  }

  /** `## [v]` names `v`. */
  lemma ClosingBracketHeading(line: string, v: string)
    requires IsVersionShape(v) && line == HeaderLine(2, 0, true, "", false, v, "]")
    ensures ParseVersionFromLine(line) == Some(v)
  {
    var pre := "]";
    assert AllChars(pre, IsBracketStarSpace);
    PlainHeaderLine(2, 0, true, "", false, v, pre);
  }

  lemma BracketHeadingAssembled(line: string)
    requires line == "## [2.0.0]"
    ensures HeaderLine(2, 0, true, "", false, "2.0.0", "]") == line
  {
    assert Copies('#', 2) == "##";
  }

  /** `## 1.0.0` names 1.0.0. */
  lemma PlainHeading(line: string)
    requires line == "## 1.0.0"
    ensures ParseVersionFromLine(line) == Some("1.0.0")
  {
    VersionOfGroups("1.0.0", "1", "0", "0");
    PlainHeadingAssembled(line);
    PlainHeaderLine(2, 0, false, "", false, "1.0.0", "");
  }

  lemma PlainHeadingAssembled(line: string)
    requires line == "## 1.0.0"
    ensures HeaderLine(2, 0, false, "", false, "1.0.0", "") == line
  {
    assert Copies('#', 2) == "##";
  }

  /** `## Release 4.1.0 - 2024-10-12` names 4.1.0. */
  lemma ReleaseHeading(line: string)
    requires line == "## Release 4.1.0 - 2024-10-12"
    ensures ParseVersionFromLine(line) == Some("4.1.0")
  {
    VersionOfGroups("4.1.0", "4", "1", "0");
    WordIsPrefix("Release");
    IsDateOctober();
    BracketStarSpaces(" ");
    ReleaseHeadingAssembled(line);
    DatedHeaderLine(2, 0, false, "Release", false, "4.1.0", " ", "2024-10-12", false);
  }

  lemma ReleaseHeadingAssembled(line: string)
    requires line == "## Release 4.1.0 - 2024-10-12"
    ensures HeaderLine(2, 0, false, "Release", false, "4.1.0", " " + ("- " + "2024-10-12")) == line
  {
    CopiesTwo('#');
  }

  /** `**Release 4.0.6** - 2024-03-09` names 4.0.6. */
  lemma BoldReleaseLine(line: string)
    requires line == "**Release 4.0.6** - 2024-03-09"
    ensures ParseVersionFromLine(line) == Some("4.0.6")
  {
    VersionOfGroups("4.0.6", "4", "0", "6");
    WordIsPrefix("Release");
    IsDateMarch();
    BracketStarSpaces("** ");
    BoldReleaseLineAssembled(line);
    DatedHeaderLine(0, 2, false, "Release", false, "4.0.6", "** ", "2024-03-09", false);
  }

  lemma BoldReleaseLineAssembled(line: string)
    requires line == "**Release 4.0.6** - 2024-03-09"
    ensures HeaderLine(0, 2, false, "Release", false, "4.0.6", "** " + ("- " + "2024-03-09")) == line
  {
    CopiesTwo('*');
  }

  lemma CopiesTwo(c: char)
    ensures Copies(c, 2) == [c, c]
  {
  }

  /** `2.32.5 (2025-08-18)` names 2.32.5. */
  lemma DatedRstLine(line: string)
    requires line == "2.32.5 (2025-08-18)"
    ensures ParseVersionFromLine(line) == Some("2.32.5")
  {
    VersionOfGroups("2.32.5", "2", "32", "5");
    IsDateAugust();
    BracketStarSpaces(" ");
    DatedRstLineAssembled(line);
    DatedHeaderLine(0, 0, false, "", false, "2.32.5", " ", "2025-08-18", true);
  }

  lemma DatedRstLineAssembled(line: string)
    requires line == "2.32.5 (2025-08-18)"
    ensures HeaderLine(0, 0, false, "", false, "2.32.5", " " + ("(" + "2025-08-18" + ")")) == line
  {
  }

  /** `Version 3.1.0` names 3.1.0. */
  lemma VersionWordLine(line: string)
    requires line == "Version 3.1.0"
    ensures ParseVersionFromLine(line) == Some("3.1.0")
  {
    VersionOfGroups("3.1.0", "3", "1", "0");
    WordIsPrefix("Version");
    VersionWordLineAssembled(line);
    PlainHeaderLine(0, 0, false, "Version", false, "3.1.0", "");
  }

  lemma VersionWordLineAssembled(line: string)
    requires line == "Version 3.1.0"
    ensures HeaderLine(0, 0, false, "Version", false, "3.1.0", "") == line
  {
  }

  lemma WordIsPrefix(w: string)
    requires w == "Release" || w == "Version"
    ensures IsPrefixWord(w)
  {
  }

  lemma BracketStarSpaces(pre: string)
    requires pre == " " || pre == "** "
    ensures AllChars(pre, IsBracketStarSpace)
  {
  }

  lemma IsDateOctober()
    ensures IsDate("2024-10-12")
  {
  }

  lemma IsDateMarch()
    ensures IsDate("2024-03-09")
  {
  }

  lemma IsDateAugust()
    ensures IsDate("2025-08-18")
  {
  }

  // ---------------------------------------------------------------------------
  // the header positions that are recognised
  // ---------------------------------------------------------------------------

  /** A line that starts with one to six `#` and whitespace is at a header position. */
  lemma AtxHeadingIsHeader(i: nat, lines: seq<string>, k: nat, sp: char, x: string)
    requires i < |lines| && 1 <= k <= 6 && IsSpace(sp) && lines[i] == Copies('#', k) + [sp] + x
    ensures IsHeaderPosition(i, lines)
  {
    var raw := lines[i];
    assert forall j :: 0 <= j < k ==> raw[j] == '#';
    assert raw[k] == sp;
    assert LeadRun(raw, c => c == '#') == k;
  }

  /** Every Markdown heading of the recognised forms sits at a header position. */
  lemma HeaderLineIsHeader(i: nat, lines: seq<string>, h: nat, b: nat, bracket: bool, word: string,
                           vee: bool, ver: string, rest: string)
    requires i < |lines| && 1 <= h <= 6 && lines[i] == HeaderLine(h, b, bracket, word, vee, ver, rest)
    ensures IsHeaderPosition(i, lines)
  {
    var x := Copies('*', b) + (if bracket then "[" else "") +
      ((if word != [] then word + " " else "") + ((if vee then "v" else "") + ver + rest));
    assert lines[i] == Copies('#', h) + [' '] + x;
    AtxHeadingIsHeader(i, lines, h, ' ', x);
  }

  /** A line whose stripped text starts with one or two `*` and then neither a star nor
      whitespace is at a header position. */
  lemma BoldStartIsHeader(i: nat, lines: seq<string>, k: nat, c: char, x: string)
    requires i < |lines| && 1 <= k <= 2 && c != '*' && !IsSpace(c)
    requires Strip(lines[i]) == Copies('*', k) + [c] + x
    ensures IsHeaderPosition(i, lines)
  {
    var stripped := Strip(lines[i]);
    assert forall j :: 0 <= j < k ==> stripped[j] == '*';
    assert stripped[k] == c;
    assert LeadRun(stripped, d => d == '*') == k;
  }

  /** A line over an underline of `-` or `=` is at a header position. */
  lemma UnderlinedIsHeader(i: nat, lines: seq<string>)
    requires i + 1 < |lines| && IsUnderline(Strip(lines[i + 1]))
    ensures IsHeaderPosition(i, lines)
  {
  }

  predicate IsDigitOrDot(c: char) {
    IsDigit(c) || c == '.'
  }

  /** A version holds digits and dots only. */
  lemma VersionChars(v: string)
    requires IsVersionShape(v)
    ensures AllChars(v, IsDigitOrDot)
  {
    var a, b, c := VersionParts(v);
    assert AllChars(a, IsDigitOrDot) && AllChars(b, IsDigitOrDot) && AllChars(c, IsDigitOrDot);
    if c == [] {
      AllCharsConcat(a, ".", IsDigitOrDot);
      AllCharsConcat(a + ".", b, IsDigitOrDot);
    } else {
      AllCharsConcat(a, ".", IsDigitOrDot);
      AllCharsConcat(a + ".", b, IsDigitOrDot);
      AllCharsConcat(a + "." + b, ".", IsDigitOrDot);
      AllCharsConcat(a + "." + b + ".", c, IsDigitOrDot);
    }
  }

  /** No string of digits and dots is a parenthesised or a dashed date. */
  lemma NoDateTail(t: string)
    requires AllChars(t, IsDigitOrDot)
    ensures !IsParenDateTail(t) && !IsDashDateTail(t)
  {
    if t != [] {
      assert IsDigitOrDot(t[0]) && IsDigitOrDot(t[|t| - 1]);
      assert LStrip(t) == t by {
        Versions.LStripOfNonSpace(t);
      }
      assert RStrip(t) == t by {
        Versions.RStripOfNonSpace(t);
      }
      assert !IsParenDateTail(t) by {
        assert t[0] != '(';
      }
      assert !IsDashDateTail(t) by {
        assert !IsDash(t[0]);
      }
    } else {
      assert LStrip(t) == [] && RStrip([]) == [];
    }
  }

  /** Every suffix of a version holds digits and dots only. */
  lemma VersionSuffixChars(v: string, j: nat)
    requires IsVersionShape(v) && j <= |v|
    ensures AllChars(v[j..], IsDigitOrDot)
  {
    VersionChars(v);
    assert forall k :: 0 <= k < |v[j..]| ==> v[j..][k] == v[j + k];
  }

  /** A version by itself is a bare version. */
  lemma BareVersionItself(v: string)
    requires IsVersionShape(v)
    ensures IsBareVersion(v)
  {
    VersionStartsWithDigit(v);
    assert v[0] != 'v';
    StripTrimmed(v);
    NoParenDateSuffix(v);
    NoDashDateSuffix(v);
    BareVersionOf(v);
  }

  lemma BareVersionOf(v: string)
    requires |v| > 0 && v[0] != 'v' && IsVersionShape(v) && Strip(v) == v
    requires RemoveSuffixMatch(v, IsParenDateTail) == v && RemoveSuffixMatch(v, IsDashDateTail) == v
    ensures IsBareVersion(v)
  {
  }

  lemma NoParenDateSuffix(v: string)
    requires IsVersionShape(v)
    ensures RemoveSuffixMatch(v, IsParenDateTail) == v
  {
    forall j | 0 <= j <= |v| ensures !IsParenDateTail(v[j..]) {
      VersionSuffixChars(v, j);
      NoDateTail(v[j..]);
    }
    NoSuffixMatch(v, IsParenDateTail);
  }

  lemma NoDashDateSuffix(v: string)
    requires IsVersionShape(v)
    ensures RemoveSuffixMatch(v, IsDashDateTail) == v
  {
    forall j | 0 <= j <= |v| ensures !IsDashDateTail(v[j..]) {
      VersionSuffixChars(v, j);
      NoDateTail(v[j..]);
    }
    NoSuffixMatch(v, IsDashDateTail);
  }

  /** A bare version first in the text or after a blank line is at a header position. */
  lemma BareVersionIsHeader(i: nat, lines: seq<string>)
    requires i < |lines| && IsVersionShape(Strip(lines[i])) && (i == 0 || Strip(lines[i - 1]) == [])
    ensures IsHeaderPosition(i, lines)
  {
    BareVersionItself(Strip(lines[i]));
  }
}
