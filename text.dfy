/** Character classes and the small string operations of Python's `str` that the
    modelled code relies on (strip, lower, split, join, startswith, `in`,
    splitlines, int-to-str).  Character classes are ASCII. */
module Text {
  import opened Wrappers

  /** Python's whitespace for `str.strip()` and the regex class `\s` (ASCII part). */
  predicate IsSpace(c: char) {
    c == ' ' || c == '\t' || c == '\n' || c == '\r' || c == '\U{000B}' || c == '\U{000C}' ||
    c == '\U{001C}' || c == '\U{001D}' || c == '\U{001E}' || c == '\U{001F}'
  }

  predicate IsDigit(c: char) {
    '0' <= c <= '9'
  }

  predicate IsLetter(c: char) {
    ('A' <= c <= 'Z') || ('a' <= c <= 'z')
  }

  /** The regex class `\w`: letters, digits and underscore. */
  predicate IsWordChar(c: char) {
    IsLetter(c) || IsDigit(c) || c == '_'
  }

  /** The characters at which Python's `str.splitlines` breaks a line. */
  predicate IsLineBreak(c: char) {
    c == '\n' || c == '\r' || c == '\U{000B}' || c == '\U{000C}' || c == '\U{001C}' ||
    c == '\U{001D}' || c == '\U{001E}' || c == '\U{0085}' || c == '\U{2028}' || c == '\U{2029}'
  }

  predicate AllChars(s: string, p: char -> bool) {
    forall k :: 0 <= k < |s| ==> p(s[k])
  }

  /** Every character of `r` occurs in `s`. */
  ghost predicate CharsFrom(r: string, s: string) {
    forall k :: 0 <= k < |r| ==> r[k] in s
  }

  lemma SliceCharsFrom(s: string, i: int, j: int)
    requires 0 <= i <= j <= |s|
    ensures CharsFrom(s[i..j], s)
  {
    forall k | 0 <= k < j - i ensures s[i..j][k] in s {
      assert s[i..j][k] == s[i + k];
    }
  }

  /** A run of characters satisfying `p` is a slice all of whose characters do. */
  lemma RunChars(s: string, p: char -> bool, i: nat, k: nat)
    requires i <= k <= |s|
    requires forall j :: i <= j < k ==> p(s[j])
    ensures AllChars(s[i..k], p)
  {
    forall t | 0 <= t < k - i ensures p(s[i..k][t]) {
      assert s[i..k][t] == s[i + t];
    }
  }

  lemma Bracketed(s: string, p: nat, a: nat)
    requires p < a < |s|
    ensures s[p..a + 1] == [s[p]] + s[p + 1..a] + [s[a]]
  {
  }

  lemma CharsFromTrans(a: string, b: string, c: string)
    requires CharsFrom(a, b) && CharsFrom(b, c)
    ensures CharsFrom(a, c)
  {
    forall k | 0 <= k < |a| ensures a[k] in c {
      var j :| 0 <= j < |b| && b[j] == a[k];
    }
  }

  // ---------------------------------------------------------------------------
  // strip
  // ---------------------------------------------------------------------------

  /** `s.lstrip()` */
  function LStrip(s: string): (r: string)
    ensures |r| <= |s| && r == s[|s| - |r|..]
    ensures r == [] || !IsSpace(r[0])
    ensures AllChars(s[..|s| - |r|], IsSpace)
    decreases |s|
  {
    if |s| > 0 && IsSpace(s[0]) then
      var r := LStrip(s[1..]);
      assert s[1..][..|s| - 1 - |r|] == s[1..|s| - |r|];
      r
    else s
  }

  /** `s.rstrip()` */
  function RStrip(s: string): (r: string)
    ensures |r| <= |s| && r == s[..|r|]
    ensures r == [] || !IsSpace(r[|r| - 1])
    ensures AllChars(s[|r|..], IsSpace)
    decreases |s|
  {
    if |s| > 0 && IsSpace(s[|s| - 1]) then
      var t := s[..|s| - 1];
      var r := RStrip(t);
      assert forall k :: |r| <= k < |s| - 1 ==> s[k] == t[k];
      r
    else s
  }

  /** `s.strip()`: `s` without its leading and trailing whitespace.  Its facts are
      stated by `StripSlice`. */
  function Strip(s: string): (r: string)
    ensures |r| <= |s|
    decreases |s|
  {
    if |s| > 0 && IsSpace(s[0]) then Strip(s[1..])
    else if |s| > 0 && IsSpace(s[|s| - 1]) then Strip(s[..|s| - 1])
    else s
  }

  /** Where `s.strip()` starts in `s`. */
  function StripStart(s: string): (i: nat)
    ensures i <= |s|
    decreases |s|
  {
    if |s| > 0 && IsSpace(s[0]) then 1 + StripStart(s[1..])
    else if |s| > 0 && IsSpace(s[|s| - 1]) then StripStart(s[..|s| - 1])
    else 0
  }

  /** What `Strip` promises: `r` is the slice of `s` at `i` once whitespace is removed
      from both ends, and `r` neither starts nor ends with whitespace. */
  ghost predicate IsStripOf(s: string, i: nat, r: string)
  {
    i + |r| <= |s| && r == s[i..i + |r|] &&
    AllChars(s[..i], IsSpace) && AllChars(s[i + |r|..], IsSpace) &&
    (r == [] || (!IsSpace(r[0]) && !IsSpace(r[|r| - 1])))
  }

  lemma StripOfLeadSpace(s: string, i: nat, r: string)
    requires |s| > 0 && IsSpace(s[0]) && IsStripOf(s[1..], i, r)
    ensures IsStripOf(s, 1 + i, r)
  {
    var t := s[1..];
    assert s[1 + i..1 + i + |r|] == t[i..i + |r|];
    assert s[..1 + i] == [s[0]] + t[..i];
    assert s[1 + i + |r|..] == t[i + |r|..];
  }

  lemma StripOfTrailSpace(s: string, i: nat, r: string)
    requires |s| > 0 && IsSpace(s[|s| - 1]) && IsStripOf(s[..|s| - 1], i, r)
    ensures IsStripOf(s, i, r)
  {
    var t := s[..|s| - 1];
    assert s[i..i + |r|] == t[i..i + |r|];
    assert s[..i] == t[..i];
    assert s[i + |r|..] == t[i + |r|..] + [s[|s| - 1]];
  }

  /** `s.strip()` is the slice of `s` left when whitespace is removed from both ends. */
  lemma {:induction false} StripSlice(s: string)
    ensures IsStripOf(s, StripStart(s), Strip(s))
    decreases |s|
  {
    if |s| > 0 && IsSpace(s[0]) {
      StripSlice(s[1..]);
      StripOfLeadSpace(s, StripStart(s[1..]), Strip(s[1..]));
    } else if |s| > 0 && IsSpace(s[|s| - 1]) {
      StripSlice(s[..|s| - 1]);
      StripOfTrailSpace(s, StripStart(s[..|s| - 1]), Strip(s[..|s| - 1]));
    } else {
      assert s[0..|s|] == s;
    }
  }

  lemma StripCharsFrom(s: string)
    ensures CharsFrom(Strip(s), s)
  {
    StripSlice(s);
    SliceCharsFrom(s, StripStart(s), StripStart(s) + |Strip(s)|);
  }

  lemma AllCharsConcat(a: string, b: string, p: char -> bool)
    requires AllChars(a, p) && AllChars(b, p)
    ensures AllChars(a + b, p)
  {
  }

  /** A path of four segments after a prefix keeps a property every piece and `/` have. */
  lemma {:induction false} AllCharsPath(prefix: string, a: string, b: string, c: string, d: string, p: char -> bool)
    requires AllChars(prefix, p) && AllChars(a, p) && AllChars(b, p) && AllChars(c, p) && AllChars(d, p)
    requires p('/')
    ensures AllChars(prefix + a + "/" + b + "/" + c + "/" + d, p)
  {
    var s1 := prefix + a;
    AllCharsConcat(prefix, a, p);
    AllCharsConcat(s1, "/", p);
    AllCharsConcat(s1 + "/", b, p);
    var s2 := s1 + "/" + b;
    AllCharsConcat(s2, "/", p);
    AllCharsConcat(s2 + "/", c, p);
    var s3 := s2 + "/" + c;
    AllCharsConcat(s3, "/", p);
    AllCharsConcat(s3 + "/", d, p);
  }

  /** Python's `not s.strip()`: the string is empty or whitespace only. */
  predicate IsBlank(s: string) {
    AllChars(s, IsSpace)
  }

  lemma {:induction false} BlankIffStripEmpty(s: string)
    ensures IsBlank(s) <==> Strip(s) == []
  {
    StripSlice(s);
    var i := StripStart(s);
    var r := Strip(s);
    if r == [] {
      assert s == s[..i] + s[i..];
      AllCharsConcat(s[..i], s[i..], IsSpace);
    } else {
      assert r[0] == s[i];
    }
  }

  /** `s` neither starts nor ends with whitespace. */
  predicate Trimmed(s: string) {
    s == [] || (!IsSpace(s[0]) && !IsSpace(s[|s| - 1]))
  }

  /** Stripping a trimmed string leaves it as it is. */
  lemma StripTrimmed(s: string)
    requires Trimmed(s)
    ensures Strip(s) == s
  {
  }

  /** Stripping removes exactly the leading whitespace in front of a trimmed string. */
  lemma {:induction false} StripLeadingSpaces(sp: string, s: string)
    requires AllChars(sp, IsSpace) && Trimmed(s)
    ensures Strip(sp + s) == s
    decreases |sp|
  {
    if sp == [] {
      assert sp + s == s;
    } else {
      assert (sp + s)[1..] == sp[1..] + s;
      StripLeadingSpaces(sp[1..], s);
    }
  }

  /** `s.strip(c)` for a single character `c`. */
  function StripChar(s: string, c: char): (r: string)
    ensures |r| <= |s|
    ensures r == [] || (r[0] != c && r[|r| - 1] != c)
    decreases |s|
  {
    if |s| > 0 && s[0] == c then StripChar(s[1..], c)
    else if |s| > 0 && s[|s| - 1] == c then StripChar(s[..|s| - 1], c)
    else s
  }

  // ---------------------------------------------------------------------------
  // prefixes, infixes, case
  // ---------------------------------------------------------------------------

  predicate StartsWith(s: string, p: string) {
    |p| <= |s| && s[..|p|] == p
  }

  predicate EndsWith(s: string, p: string) {
    |p| <= |s| && s[|s| - |p|..] == p
  }

  predicate OccursAt(s: string, sub: string, i: int) {
    0 <= i && i + |sub| <= |s| && s[i..i + |sub|] == sub
  }

  /** Python's `sub in s`. */
  predicate Contains(s: string, sub: string) {
    exists i :: 0 <= i <= |s| && OccursAt(s, sub, i)
  }

  lemma OccursAtContains(s: string, sub: string, i: int)
    requires OccursAt(s, sub, i)
    ensures Contains(s, sub)
  {
  }

  /** A slice of a suffix is a slice of the whole. */
  lemma SliceOfSuffix<T>(t: seq<T>, j: nat, a: nat, b: nat)
    requires j <= |t| && a <= b <= |t| - j
    ensures t[j..][a..b] == t[j + a..j + b]
  {
    forall x | 0 <= x < b - a ensures t[j..][a..b][x] == t[j + a..j + b][x] {
      assert t[j..][a..b][x] == t[j..][a + x] == t[j + a + x];
    }
  }

  lemma ContainsSelf(s: string)
    ensures Contains(s, s)
  {
    assert OccursAt(s, s, 0);
  }

  lemma SuffixContained(s: string, i: int)
    requires 0 <= i <= |s|
    ensures Contains(s, s[i..])
  {
    assert s[i..] == s[i..|s|];
    assert OccursAt(s, s[i..], i);
  }

  lemma SliceContained(s: string, i: int, j: int)
    requires 0 <= i <= j <= |s|
    ensures Contains(s, s[i..j])
  {
    assert OccursAt(s, s[i..j], i);
  }

  /** A substring of a substring of `a` is a substring of `a`. */
  lemma ContainsTrans(a: string, b: string, c: string)
    requires Contains(a, b) && Contains(b, c)
    ensures Contains(a, c)
  {
    var i :| 0 <= i <= |a| && OccursAt(a, b, i);
    var j :| 0 <= j <= |b| && OccursAt(b, c, j);
    forall t | 0 <= t < |c| ensures a[i + j + t] == c[t] {
      assert c[t] == b[j..j + |c|][t] == b[j + t];
      assert b[j + t] == a[i..i + |b|][j + t];
    }
    assert a[i + j..i + j + |c|] == c;
    assert OccursAt(a, c, i + j);
  }

  lemma StripContained(s: string)
    ensures Contains(s, Strip(s))
  {
    StripSlice(s);
    assert OccursAt(s, Strip(s), StripStart(s));
  }

  /** A character that is not whitespace survives `strip()`. */
  lemma NonSpaceSurvivesStrip(s: string, k: int)
    requires 0 <= k < |s| && !IsSpace(s[k])
    ensures s[k] in Strip(s)
  {
    StripSlice(s);
    var i := StripStart(s);
    var r := Strip(s);
    assert i <= k < i + |r|;
    assert r[k - i] == s[k];
  }

  // ---------------------------------------------------------------------------
  // runs and anchored regular-expression steps
  // ---------------------------------------------------------------------------

  /** Length of the longest prefix of `s` whose characters satisfy `p`. */
  function LeadRun(s: string, p: char -> bool): (k: nat)
    ensures k <= |s|
    ensures forall j :: 0 <= j < k ==> p(s[j])
    ensures k < |s| ==> !p(s[k])
    decreases |s|
  {
    if |s| > 0 && p(s[0]) then 1 + LeadRun(s[1..], p) else 0
  }

  /** A run of `p`-characters followed by one without `p` is the leading run. */
  lemma {:induction false} LeadRunConcat(a: string, b: string, p: char -> bool)
    requires AllChars(a, p) && (b == [] || !p(b[0]))
    ensures LeadRun(a + b, p) == |a|
    decreases |a|
  {
    if a == [] {
      assert a + b == b;
    } else {
      assert (a + b)[1..] == a[1..] + b;
      LeadRunConcat(a[1..], b, p);
    }
  }

  /** The end of the longest run of characters satisfying `p` that starts at `i`. */
  function RunEnd(s: string, p: char -> bool, i: nat): (k: nat)
    requires i <= |s|
    ensures i <= k <= |s|
    ensures forall j :: i <= j < k ==> p(s[j])
    ensures k < |s| ==> !p(s[k])
    decreases |s| - i
  {
    if i < |s| && p(s[i]) then RunEnd(s, p, i + 1) else i
  }

  /** The run itself, as a slice, holds only characters with the property. */
  lemma RunSlice(s: string, p: char -> bool, i: nat)
    requires i <= |s|
    ensures AllChars(s[i..RunEnd(s, p, i)], p)
  {
    var k := RunEnd(s, p, i);
    forall t | 0 <= t < k - i ensures p(s[i..k][t]) {
      assert s[i..k][t] == s[i + t];
    }
  }

  /** The run is the unique maximal one: any `n` with those two properties is its end. */
  lemma RunEndOf(s: string, p: char -> bool, i: nat, n: nat)
    requires i <= n <= |s|
    requires forall j :: i <= j < n ==> p(s[j])
    requires n < |s| ==> !p(s[n])
    ensures RunEnd(s, p, i) == n
  {
  }

  /** The first index at or after `i` whose character satisfies `p`, or `|s|`. */
  function FirstWhere(s: string, p: char -> bool, i: nat): (k: nat)
    requires i <= |s|
    ensures i <= k <= |s|
    ensures forall j :: i <= j < k ==> !p(s[j])
    ensures k < |s| ==> p(s[k])
    decreases |s| - i
  {
    if i == |s| || p(s[i]) then i else FirstWhere(s, p, i + 1)
  }

  /** `re.sub("^c{1,n}", "", s)`: removes up to `n` leading copies of `c`. */
  function DropLeadingUpTo(s: string, c: char, n: nat): (r: string)
    ensures |r| <= |s| && r == s[|s| - |r|..]
    ensures |s| - |r| <= n
    ensures forall j :: 0 <= j < |s| - |r| ==> s[j] == c
    ensures |s| - |r| < n ==> r == [] || r[0] != c
    decreases n
  {
    if n > 0 && |s| > 0 && s[0] == c then
      var r := DropLeadingUpTo(s[1..], c, n - 1);
      assert s[1..][|s| - 1 - |r|..] == s[|s| - |r|..];
      assert forall j :: 1 <= j < |s| - |r| ==> s[j] == s[1..][j - 1];
      r
    else s
  }

  /** `k` copies of `c`. */
  function Copies(c: char, k: nat): (s: string)
    ensures |s| == k && forall j :: 0 <= j < k ==> s[j] == c
  {
    seq(k, _ => c)
  }

  /** Up to `n` leading copies of `c` are removed, and nothing after them. */
  lemma DropLeadingCopies(c: char, k: nat, n: nat, s: string)
    requires k <= n && (s == [] || s[0] != c)
    ensures DropLeadingUpTo(Copies(c, k) + s, c, n) == s
  {
    var t := Copies(c, k) + s;
    var r := DropLeadingUpTo(t, c, n);
    assert t[k..] == s;
    if |t| - |r| < k {
      assert r[0] == t[|t| - |r|];
    }
  }

  /** Index of the first position `q >= p` at which the suffix `s[q..]` satisfies `m`,
      or `|s| + 1` when there is none. */
  function FirstSuffix(s: string, m: string -> bool, p: nat): (q: nat)
    requires p <= |s| + 1
    ensures p <= q <= |s| + 1
    ensures q <= |s| ==> m(s[q..])
    ensures forall j :: p <= j < q ==> !m(s[j..])
    decreases |s| + 1 - p
  {
    if p > |s| then p
    else if m(s[p..]) then p
    else FirstSuffix(s, m, p + 1)
  }

  /** `re.sub(P + "$", "", s)` for a pattern `P` that cannot match the empty string when
      `s` has no trailing line break: the leftmost suffix that matches is removed. */
  function RemoveSuffixMatch(s: string, m: string -> bool): (r: string)
    ensures |r| <= |s| && r == s[..|r|]
    ensures |r| < |s| ==> m(s[|r|..])
    ensures forall j :: 0 <= j < |r| ==> !m(s[j..])
  {
    var q := FirstSuffix(s, m, 0);
    if q <= |s| then s[..q] else s
  }

  /** No suffix pattern matches, so nothing is removed. */
  lemma NoSuffixMatch(s: string, m: string -> bool)
    requires forall j :: 0 <= j <= |s| ==> !m(s[j..])
    ensures RemoveSuffixMatch(s, m) == s
  {
  }

  function LowerChar(c: char): (d: char)
    ensures IsLetter(c) <==> IsLetter(d)
    ensures !('A' <= d <= 'Z')
  {
    if 'A' <= c <= 'Z' then (c as int - 'A' as int + 'a' as int) as char else c
  }

  /** `s.lower()` (ASCII letters). */
  function Lower(s: string): (r: string)
    ensures |r| == |s|
    ensures forall k :: 0 <= k < |s| ==> r[k] == LowerChar(s[k])
  {
    seq(|s|, k requires 0 <= k < |s| => LowerChar(s[k]))
  }

  lemma LowerIdempotent(s: string)
    ensures Lower(Lower(s)) == Lower(s)
  {
  }

  /** `s.replace(a, b)` for single characters. */
  function ReplaceChar(s: string, a: char, b: char): (r: string)
    ensures |r| == |s|
    ensures forall k :: 0 <= k < |s| ==> r[k] == (if s[k] == a then b else s[k])
  {
    seq(|s|, k requires 0 <= k < |s| => if s[k] == a then b else s[k])
  }

  // ---------------------------------------------------------------------------
  // split and join
  // ---------------------------------------------------------------------------

  /** `len(s.split())`: the number of maximal runs of non-whitespace characters. */
  function WordCount(s: string): (n: nat)
    ensures n <= |s|
    ensures n == 0 <==> AllChars(s, IsSpace)
    decreases |s|
  {
    if |s| == 0 then 0
    else if IsSpace(s[0]) then WordCount(s[1..])
    else if |s| == 1 || IsSpace(s[1]) then 1 + WordCount(s[1..])
    else WordCount(s[1..])
  }

  /** `sep.join(parts)` */
  function Join(parts: seq<string>, sep: string): (r: string)
    ensures parts == [] ==> r == []
    ensures |parts| == 1 ==> r == parts[0]
    decreases |parts|
  {
    if |parts| == 0 then []
    else if |parts| == 1 then parts[0]
    else parts[0] + sep + Join(parts[1..], sep)
  }

  lemma JoinAppend(parts: seq<string>, x: string, sep: string)
    requires parts != []
    ensures Join(parts + [x], sep) == Join(parts, sep) + sep + x
    decreases |parts|
  {
    if |parts| == 1 {
      assert parts + [x] == [parts[0], x];
    } else {
      assert (parts + [x])[1..] == parts[1..] + [x];
      JoinAppend(parts[1..], x, sep);
    }
  }

  /** Every part occurs in the joined text. */
  lemma {:induction false} JoinContainsPart(parts: seq<string>, sep: string, k: nat)
    requires k < |parts|
    ensures Contains(Join(parts, sep), parts[k])
    decreases |parts|
  {
    if |parts| == 1 {
      ContainsSelf(parts[0]);
    } else {
      var rest := Join(parts[1..], sep);
      var whole := Join(parts, sep);
      assert whole == parts[0] + sep + rest;
      if k == 0 {
        InfixContained([], parts[0], sep + rest);
        assert [] + parts[0] + (sep + rest) == whole;
      } else {
        JoinContainsPart(parts[1..], sep, k - 1);
        InfixContained(parts[0] + sep, rest, []);
        assert parts[0] + sep + rest + [] == whole;
        ContainsTrans(whole, rest, parts[k]);
      }
    }
  }

  /** The middle of a concatenation occurs in it. */
  lemma InfixContained(a: string, b: string, c: string)
    ensures Contains(a + b + c, b)
  {
    assert (a + b + c)[|a|..|a| + |b|] == b;
    assert OccursAt(a + b + c, b, |a|);
  }

  /** The index of the first `c` in `s` at or after `i`, or `|s|` when there is none. */
  function FindFrom(s: string, c: char, i: nat): (k: nat)
    requires i <= |s|
    ensures i <= k <= |s|
    ensures k < |s| ==> s[k] == c
    ensures forall j :: i <= j < k ==> s[j] != c
    decreases |s| - i
  {
    if i == |s| || s[i] == c then i else FindFrom(s, c, i + 1)
  }

  /** The prefix of `s` before the first occurrence of `c`: `s.split(c)[0]`. */
  function Before(s: string, c: char): (r: string)
  {
    s[..FindFrom(s, c, 0)]
  }

  lemma BeforeFacts(s: string, c: char)
    ensures StartsWith(s, Before(s, c))
    ensures c !in Before(s, c)
    ensures |Before(s, c)| < |s| ==> s[|Before(s, c)|] == c
    ensures c !in s ==> Before(s, c) == s
  {
    var k := FindFrom(s, c, 0);
    assert forall j :: 0 <= j < k ==> Before(s, c)[j] == s[j];
  }

  /** `s.split(c)` for a single-character separator. */
  function Split(s: string, c: char): (parts: seq<string>)
    ensures |parts| >= 1
    decreases |s|
  {
    var k := FindFrom(s, c, 0);
    if k == |s| then [s] else [s[..k]] + Split(s[k + 1..], c)
  }

  /** No part of `s.split(c)` contains `c`. */
  lemma {:induction false} SplitPartsLackSep(s: string, c: char, j: nat)
    requires j < |Split(s, c)|
    ensures c !in Split(s, c)[j]
    decreases |s|
  {
    var k := FindFrom(s, c, 0);
    if k < |s| {
      var rest := s[k + 1..];
      assert Split(s, c) == [s[..k]] + Split(rest, c);
      if j == 0 {
        BeforeFacts(s, c);
      } else {
        SplitPartsLackSep(rest, c, j - 1);
      }
    } else {
      BeforeFacts(s, c);
    }
  }

  /** Splitting and joining back with the same separator gives the input. */
  lemma {:induction false} JoinSplit(s: string, c: char)
    ensures Join(Split(s, c), [c]) == s
    decreases |s|
  {
    var b := Before(s, c);
    if |b| < |s| {
      BeforeFacts(s, c);
      var rest := s[|b| + 1..];
      var tail := Split(rest, c);
      assert Split(s, c) == [b] + tail;
      JoinSplit(rest, c);
      assert s == b + [c] + rest by {
        assert s[..|b|] == b;
        assert s == s[..|b|] + [s[|b|]] + s[|b| + 1..];
      }
      JoinCons(b, tail, [c]);
    }
  }

  lemma JoinCons(x: string, parts: seq<string>, sep: string)
    requires |parts| >= 1
    ensures Join([x] + parts, sep) == x + sep + Join(parts, sep)
  {
    assert ([x] + parts)[1..] == parts;
  }

  /** The first `c` at or after `i` is at `n` when `s[n]` is `c` and none comes before. */
  lemma {:induction false} FindAt(s: string, c: char, i: nat, n: nat)
    requires i <= n < |s| && s[n] == c
    requires forall j :: i <= j < n ==> s[j] != c
    ensures FindFrom(s, c, i) == n
    decreases n - i
  {
    if i < n {
      FindAt(s, c, i + 1, n);
    }
  }

  /** `split` takes off the part before the first separator and splits the rest. */
  lemma SplitAt(s: string, c: char, k: nat)
    requires k < |s| && FindFrom(s, c, 0) == k
    ensures Split(s, c) == [s[..k]] + Split(s[k + 1..], c)
  {
  }

  /** Joining parts that do not contain the separator and splitting again gives the parts. */
  lemma {:induction false} SplitJoin(parts: seq<string>, c: char)
    requires |parts| >= 1
    requires forall j :: 0 <= j < |parts| ==> c !in parts[j]
    ensures Split(Join(parts, [c]), c) == parts
    decreases |parts|
  {
    var a := parts[0];
    if |parts| == 1 {
      NoSepFound(a, c);
    } else {
      var rest := Join(parts[1..], [c]);
      var s := a + [c] + rest;
      assert Join(parts, [c]) == s;
      assert s[|a|] == c;
      assert forall j :: 0 <= j < |a| ==> s[j] == a[j];
      FindAt(s, c, 0, |a|);
      SplitAt(s, c, |a|);
      assert s[..|a|] == a;
      assert s[|a| + 1..] == rest;
      SplitJoin(parts[1..], c);
      assert parts == [a] + parts[1..];
    }
  }

  /** A string without the separator splits into itself. */
  lemma NoSepFound(a: string, c: char)
    requires c !in a
    ensures Split(a, c) == [a]
  {
    assert forall j :: 0 <= j < |a| ==> a[j] != c;
    NoSepFrom(a, c, 0);
  }

  lemma {:induction false} NoSepFrom(a: string, c: char, i: nat)
    requires i <= |a|
    requires forall j :: 0 <= j < |a| ==> a[j] != c
    ensures FindFrom(a, c, i) == |a|
    decreases |a| - i
  {
    if i < |a| {
      NoSepFrom(a, c, i + 1);
    }
  }

  // ---------------------------------------------------------------------------
  // integers
  // ---------------------------------------------------------------------------

  function DigitChar(d: nat): (c: char)
    requires d < 10
    ensures IsDigit(c)
  {
    ('0' as int + d) as char
  }

  /** `str(n)` for a natural number: decimal digits, no leading zeros. */
  function NatToString(n: nat): (s: string)
    ensures |s| >= 1 && AllChars(s, IsDigit)
    ensures n >= 10 ==> s[0] != '0'
    decreases n
  {
    if n < 10 then [DigitChar(n)] else NatToString(n / 10) + [DigitChar(n % 10)]
  }

  /** `int(s)` for a string of decimal digits. */
  function DigitsValue(s: string): nat
    requires AllChars(s, IsDigit)
    decreases |s|
  {
    if |s| == 0 then 0 else DigitsValue(s[..|s| - 1]) * 10 + (s[|s| - 1] as int - '0' as int)
  }

  /** Printing a number and reading it back gives the number. */
  lemma {:induction false} NatToStringRoundTrip(n: nat)
    ensures DigitsValue(NatToString(n)) == n
    decreases n
  {
    if n >= 10 {
      var s := NatToString(n);
      assert s[..|s| - 1] == NatToString(n / 10);
      NatToStringRoundTrip(n / 10);
    }
  }

  lemma NatToStringInjective(m: nat, n: nat)
    requires NatToString(m) == NatToString(n)
    ensures m == n
  {
    NatToStringRoundTrip(m);
    NatToStringRoundTrip(n);
  }

  /** Python's `str(int)` for an integer that may be negative. */
  function IntToString(i: int): (s: string)
    ensures |s| >= 1
  {
    if i < 0 then "-" + NatToString(-i) else NatToString(i)
  }

  // ---------------------------------------------------------------------------
  // splitlines
  // ---------------------------------------------------------------------------

  /** Index of the first line-break character of `s` at or after `i`, or `|s|`. */
  function NextBreak(s: string, i: nat): (k: nat)
    requires i <= |s|
    ensures i <= k <= |s|
    ensures k < |s| ==> IsLineBreak(s[k])
    ensures forall j :: i <= j < k ==> !IsLineBreak(s[j])
    decreases |s| - i
  {
    if i == |s| || IsLineBreak(s[i]) then i else NextBreak(s, i + 1)
  }

  /** Width of the line break at `k`: 2 for "\r\n", 1 otherwise. */
  function BreakWidth(s: string, k: nat): (w: nat)
    requires k < |s|
    ensures 1 <= w <= 2 && k + w <= |s|
  {
    if s[k] == '\r' && k + 1 < |s| && s[k + 1] == '\n' then 2 else 1
  }

  /** `s.splitlines()`: the lines of `s` without their line breaks; a final line break
      does not start an empty line. */
  function Lines(s: string): (ls: seq<string>)
    ensures s == [] <==> ls == []
    decreases |s|
  {
    if s == [] then []
    else
      var k := NextBreak(s, 0);
      if k == |s| then [s]
      else [s[..k]] + Lines(s[k + BreakWidth(s, k)..])
  }

  /** The first line ends at the first line break; the rest of the lines follow it. */
  lemma LinesAtBreak(s: string, k: nat)
    requires k == NextBreak(s, 0) < |s|
    ensures Lines(s) == [s[..k]] + Lines(s[k + BreakWidth(s, k)..])
  {
  }

  /** The first line of `s.splitlines()` holds no line break. */
  lemma FirstLineHasNoBreaks(s: string, c: nat)
    requires s != [] && c < |Lines(s)[0]|
    ensures !IsLineBreak(Lines(s)[0][c])
  {
    var k := NextBreak(s, 0);
    if k < |s| {
      LinesAtBreak(s, k);
      assert Lines(s)[0] == s[..k];
    }
  }

  /** Every line of `s.splitlines()` is a substring of `s`. */
  lemma {:induction false} LineInText(s: string, j: nat)
    requires j < |Lines(s)|
    ensures Contains(s, Lines(s)[j])
    decreases |s|
  {
    var k := NextBreak(s, 0);
    if k == |s| {
      ContainsSelf(s);
    } else {
      LinesAtBreak(s, k);
      var w := k + BreakWidth(s, k);
      if j == 0 {
        SliceContained(s, 0, k);
        assert s[0..k] == s[..k];
      } else {
        LineInText(s[w..], j - 1);
        SuffixContained(s, w);
        ContainsTrans(s, s[w..], Lines(s[w..])[j - 1]);
      }
    }
  }

  /** No line of `s.splitlines()` holds a line break. */
  lemma {:induction false} LinesHaveNoBreaks(s: string, j: nat, c: nat)
    requires j < |Lines(s)| && c < |Lines(s)[j]|
    ensures !IsLineBreak(Lines(s)[j][c])
    decreases |s|
  {
    if j == 0 {
      FirstLineHasNoBreaks(s, c);
    } else {
      var k := NextBreak(s, 0);
      assert k < |s|;
      var rest := s[k + BreakWidth(s, k)..];
      assert j - 1 < |Lines(rest)| && Lines(s)[j] == Lines(rest)[j - 1] by {
        LinesAtBreak(s, k);
      }
      LinesHaveNoBreaks(rest, j - 1, c);
    }
  }

  // ---------------------------------------------------------------------------
  // sequences
  // ---------------------------------------------------------------------------

  /** `a` is `b` with some elements removed, the rest kept in order. */
  predicate IsSubsequence<T(==)>(a: seq<T>, b: seq<T>)
    decreases |b|
  {
    if a == [] then true
    else if b == [] then false
    else (a[|a| - 1] == b[|b| - 1] && IsSubsequence(a[..|a| - 1], b[..|b| - 1])) ||
         IsSubsequence(a, b[..|b| - 1])
  }

  /** The present values of `f` over `xs`, in order. */
  function Present<A, B>(f: A -> Option<B>, xs: seq<A>): (ys: seq<B>)
    ensures |ys| <= |xs|
  {
    if |xs| == 0 then []
    else
      var rest := Present(f, xs[..|xs| - 1]);
      match f(xs[|xs| - 1])
      case Some(y) => rest + [y]
      case None => rest
  }

  lemma {:induction false} PresentMembership<A, B>(f: A -> Option<B>, xs: seq<A>, y: B)
    ensures y in Present(f, xs) <==> exists i :: 0 <= i < |xs| && f(xs[i]) == Some(y)
    decreases |xs|
  {
    if |xs| > 0 {
      var n := |xs| - 1;
      var init := xs[..n];
      PresentMembership(f, init, y);
      assert forall i :: 0 <= i < n ==> init[i] == xs[i];
    }
  }

  /** `[f(x) for x in xs]` */
  function MapSeq<A, B>(f: A -> B, xs: seq<A>): (ys: seq<B>)
    ensures |ys| == |xs|
  {
    if |xs| == 0 then [] else MapSeq(f, xs[..|xs| - 1]) + [f(xs[|xs| - 1])]
  }

  lemma {:induction false} MapSeqAt<A, B>(f: A -> B, xs: seq<A>, k: nat)
    requires k < |xs|
    ensures MapSeq(f, xs)[k] == f(xs[k])
    decreases |xs|
  {
    if k < |xs| - 1 {
      MapSeqAt(f, xs[..|xs| - 1], k);
    }
  }

  /** The concatenation of `f(x)` for every `x` of `xs`, in order. */
  function FlatMap<A, B>(f: A -> seq<B>, xs: seq<A>): (ys: seq<B>)
  {
    if |xs| == 0 then [] else FlatMap(f, xs[..|xs| - 1]) + f(xs[|xs| - 1])
  }

  lemma FlatMapSnoc<A, B>(f: A -> seq<B>, xs: seq<A>, i: nat)
    requires i < |xs|
    ensures FlatMap(f, xs[..i + 1]) == FlatMap(f, xs[..i]) + f(xs[i])
  {
    assert xs[..i + 1][..i] == xs[..i];
  }

  lemma {:induction false} FlatMapAppend<A, B>(f: A -> seq<B>, xs: seq<A>, ys: seq<A>)
    ensures FlatMap(f, xs + ys) == FlatMap(f, xs) + FlatMap(f, ys)
    decreases |ys|
  {
    if |ys| == 0 {
      assert xs + ys == xs;
    } else {
      var n := |ys| - 1;
      assert (xs + ys)[..|xs + ys| - 1] == xs + ys[..n];
      FlatMapAppend(f, xs, ys[..n]);
    }
  }

  lemma Regroup<T>(d: seq<T>, x: seq<T>, y: seq<T>, z: seq<T>)
    ensures d + x + y + z == d + (x + y + z)
  {
  }

  lemma Assoc<T>(x: seq<T>, y: seq<T>, z: seq<T>)
    ensures x + y + z == x + (y + z)
  {
  }

  lemma FrontAt<T>(p: seq<T>, b: seq<T>, q: seq<T>, k: nat)
    requires k < |p|
    ensures (p + b + q)[k] == p[k]
  {
  }

  lemma SliceMiddle<T>(p: seq<T>, b: seq<T>, q: seq<T>)
    ensures |p| + |b| <= |p + b + q| && (p + b + q)[|p|..|p| + |b|] == b
  {
  }

  lemma {:induction false} FlatMapUniformLength<A, B>(f: A -> seq<B>, xs: seq<A>, n: nat)
    requires forall x :: |f(x)| == n
    ensures |FlatMap(f, xs)| == n * |xs|
    decreases |xs|
  {
    if |xs| > 0 {
      FlatMapUniformLength(f, xs[..|xs| - 1], n);
      assert n * (|xs| - 1) + n == n * |xs|;
    }
  }

  /** When every block has `n` elements, element `j` of block `i` sits at `i * n + j`. */
  lemma FlatMapUniform<A, B>(f: A -> seq<B>, xs: seq<A>, n: nat, i: nat, j: nat)
    requires forall x :: |f(x)| == n
    requires i < |xs| && j < n
    ensures |FlatMap(f, xs)| == n * |xs|
    ensures i * n + j < |FlatMap(f, xs)| && FlatMap(f, xs)[i * n + j] == f(xs[i])[j]
  {
    FlatMapUniformLength(f, xs, n);
    var p, q := xs[..i + 1], xs[i + 1..];
    assert xs == p + q;
    FlatMapAppend(f, p, q);
    FlatMapSnoc(f, xs, i);
    assert p[..i] == xs[..i];
    FlatMapUniformLength(f, xs[..i], n);
    var front := FlatMap(f, xs[..i]);
    assert |front| == i * n;
    assert FlatMap(f, xs) == front + f(xs[i]) + FlatMap(f, q);
  }
}
