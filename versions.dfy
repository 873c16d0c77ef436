/** Release-segment versions as in the "Final releases" subsection of PEP 440:
    a version is a non-empty sequence of non-negative integers, and two versions
    compare segment by segment with the shorter one padded with zeros. */
module Versions {
  import opened Wrappers
  import opened Text

  type Release = seq<nat>

  /** A string of decimal digit runs separated by single dots: `\d+(\.\d+)*`. */
  predicate IsDottedDigits(s: string) {
    var groups := Split(s, '.');
    forall j :: 0 <= j < |groups| ==> |groups[j]| > 0 && AllChars(groups[j], IsDigit)
  }

  function GroupValues(groups: seq<string>): (v: Release)
    requires forall j :: 0 <= j < |groups| ==> AllChars(groups[j], IsDigit)
    ensures |v| == |groups|
    ensures forall j :: 0 <= j < |groups| ==> v[j] == DigitsValue(groups[j])
  {
    seq(|groups|, j requires 0 <= j < |groups| => DigitsValue(groups[j]))
  }

  /** Drops a leading `v` or `V`. */
  function DropV(s: string): (r: string)
    ensures (|s| > 0 && (s[0] == 'v' || s[0] == 'V')) ==> r == s[1..]
    ensures !(|s| > 0 && (s[0] == 'v' || s[0] == 'V')) ==> r == s
  {
    if |s| > 0 && (s[0] == 'v' || s[0] == 'V') then s[1..] else s
  }

  /** Parses a release version: surrounding whitespace, an optional `v`, then
      `\d+(\.\d+)*`.  Anything else is invalid (`None`). */
  function ParseRelease(s: string): (r: Option<Release>)
    ensures r.Some? <==> IsDottedDigits(DropV(Strip(s)))
    ensures r.Some? ==> |r.value| == |Split(DropV(Strip(s)), '.')| >= 1
  {
    var t := DropV(Strip(s));
    if IsDottedDigits(t) then Some(GroupValues(Split(t, '.'))) else None
  }

  /** Segment `i` of `v`, zero past its end. */
  function At(v: Release, i: nat): nat {
    if i < |v| then v[i] else 0
  }

  function Max(a: nat, b: nat): nat {
    if a < b then b else a
  }

  /** Comparison from segment `i` on: -1, 0 or 1. */
  function CmpFrom(a: Release, b: Release, i: nat): (c: int)
    ensures -1 <= c <= 1
    decreases Max(|a|, |b|) - i
  {
    if i >= |a| && i >= |b| then 0
    else if At(a, i) < At(b, i) then -1
    else if At(a, i) > At(b, i) then 1
    else CmpFrom(a, b, i + 1)
  }

  /** PEP 440 release comparison. */
  function Cmp(a: Release, b: Release): (c: int)
    ensures -1 <= c <= 1
  {
    CmpFrom(a, b, 0)
  }

  /** `a` and `b` agree on every padded segment from `i` on. */
  ghost predicate SameFrom(a: Release, b: Release, i: nat) {
    forall k :: i <= k ==> At(a, k) == At(b, k)
  }

  /** Comparing from `i` gives 0 exactly when the padded segments agree from `i` on. */
  lemma {:induction false} CmpFromZero(a: Release, b: Release, i: nat)
    ensures CmpFrom(a, b, i) == 0 <==> SameFrom(a, b, i)
    decreases Max(|a|, |b|) - i
  {
    if i >= |a| && i >= |b| {
      forall k | i <= k ensures At(a, k) == At(b, k) {}
    } else if At(a, i) == At(b, i) {
      CmpFromZero(a, b, i + 1);
      if SameFrom(a, b, i + 1) {
        forall k | i <= k ensures At(a, k) == At(b, k) {
          if k > i {}
        }
      }
    }
  }

  lemma {:induction false} CmpFromAntisymmetric(a: Release, b: Release, i: nat)
    ensures CmpFrom(a, b, i) == -CmpFrom(b, a, i)
    decreases Max(|a|, |b|) - i
  {
    if !(i >= |a| && i >= |b|) && At(a, i) == At(b, i) {
      CmpFromAntisymmetric(a, b, i + 1);
    }
  }

  /** Swapping the operands negates the comparison. */
  lemma CmpAntisymmetric(a: Release, b: Release)
    ensures Cmp(a, b) == -Cmp(b, a)
  {
    CmpFromAntisymmetric(a, b, 0);
  }

  /** Equal up to trailing zeros is exactly comparison 0; in particular `0.13 == 0.13.0`. */
  lemma CmpZeroIffPaddedEqual(a: Release, b: Release)
    ensures Cmp(a, b) == 0 <==> forall k :: At(a, k) == At(b, k)
  {
    CmpFromZero(a, b, 0);
  }

  lemma TrailingZeroEqual(v: Release)
    ensures Cmp(v + [0], v) == 0
  {
    forall k ensures At(v + [0], k) == At(v, k) {}
    CmpZeroIffPaddedEqual(v + [0], v);
  }

  lemma {:induction false} CmpFromTransitive(a: Release, b: Release, c: Release, i: nat)
    requires CmpFrom(a, b, i) == 1 && CmpFrom(b, c, i) == 1
    ensures CmpFrom(a, c, i) == 1
    decreases Max(Max(|a|, |b|), |c|) - i
  {
    if At(a, i) == At(b, i) && At(b, i) == At(c, i) {
      CmpFromTransitive(a, b, c, i + 1);
    }
  }

  /** "Newer than" is transitive. */
  lemma CmpTransitive(a: Release, b: Release, c: Release)
    requires Cmp(a, b) == 1 && Cmp(b, c) == 1
    ensures Cmp(a, c) == 1
  {
    CmpFromTransitive(a, b, c, 0);
  }

  lemma {:induction false} CmpFromSame(a: Release, b: Release, v: Release, i: nat)
    requires SameFrom(a, b, i)
    ensures CmpFrom(a, v, i) == CmpFrom(b, v, i)
    decreases Max(Max(|a|, |b|), |v|) - i
  {
    if i < Max(Max(|a|, |b|), |v|) && At(a, i) == At(v, i) {
      assert SameFrom(a, b, i + 1);
      CmpFromSame(a, b, v, i + 1);
    }
  }

  /** Versions equal up to trailing zeros compare alike with every other version. */
  lemma CmpEquivalent(a: Release, b: Release, v: Release)
    requires Cmp(a, b) == 0
    ensures Cmp(a, v) == Cmp(b, v)
  {
    CmpFromZero(a, b, 0);
    CmpFromSame(a, b, v, 0);
  }

  /** No version lies in `(a, b]` when `a == b`. */
  lemma EmptyInterval(a: Release, v: Release, b: Release)
    requires Cmp(a, b) == 0
    ensures !(Cmp(a, v) < 0 && Cmp(v, b) <= 0)
  {
    CmpEquivalent(a, b, v);
    CmpAntisymmetric(v, b);
  }

  /** The canonical text of a release: its segments in decimal, joined by dots. */
  function Render(v: Release): (s: string)
    requires |v| >= 1
  {
    Join(RenderGroups(v), ".")
  }

  function RenderGroups(v: Release): (gs: seq<string>)
    ensures |gs| == |v|
    ensures forall j :: 0 <= j < |v| ==> gs[j] == NatToString(v[j])
  {
    seq(|v|, j requires 0 <= j < |v| => NatToString(v[j]))
  }

  lemma {:induction false} JoinDigitsFirst(gs: seq<string>)
    requires |gs| >= 1
    requires forall j :: 0 <= j < |gs| ==> |gs[j]| >= 1 && AllChars(gs[j], IsDigit)
    ensures |Join(gs, ".")| >= 1
    ensures IsDigit(Join(gs, ".")[0]) && IsDigit(Join(gs, ".")[|Join(gs, ".")| - 1])
    decreases |gs|
  {
    if |gs| > 1 {
      JoinDigitsFirst(gs[1..]);
      var r := Join(gs[1..], ".");
      assert Join(gs, ".") == gs[0] + "." + r;
    }
  }

  /** Parsing the canonical text of a release gives the release back. */
  lemma RenderParse(v: Release)
    requires |v| >= 1
    ensures ParseRelease(Render(v)) == Some(v)
  {
    var gs := RenderGroups(v);
    var s := Render(v);
    forall j | 0 <= j < |gs| ensures '.' !in gs[j] {
      assert AllChars(gs[j], IsDigit);
    }
    SplitJoin(gs, '.');
    JoinDigitsFirst(gs);
    assert Strip(s) == s by {
      LStripOfNonSpace(s);
      RStripOfNonSpace(s);
    }
    assert DropV(s) == s;
    forall j | 0 <= j < |v| ensures DigitsValue(gs[j]) == v[j] {
      NatToStringRoundTrip(v[j]);
    }
    assert GroupValues(gs) == v;
  }

  lemma LStripOfNonSpace(s: string)
    requires |s| >= 1 && !IsSpace(s[0])
    ensures LStrip(s) == s
  {
  }

  lemma RStripOfNonSpace(s: string)
    requires |s| >= 1 && !IsSpace(s[|s| - 1])
    ensures RStrip(s) == s
  {
  }

  /** Appending ".0" to the canonical text of a release does not make it newer. */
  lemma TrailingZeroText(v: Release)
    requires |v| >= 1
    ensures Render(v + [0]) == Render(v) + ".0"
    ensures ParseRelease(Render(v + [0])) == Some(v + [0])
    ensures Cmp(v + [0], v) == 0
  {
    assert RenderGroups(v + [0]) == RenderGroups(v) + ["0"];
    JoinAppend(RenderGroups(v), "0", ".");
    RenderParse(v + [0]);
    TrailingZeroEqual(v);
  }
}
