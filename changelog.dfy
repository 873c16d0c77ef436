/** Splitting a changelog into per-version chunks by character offsets, and keeping
    the chunks whose version lies in a half-open range. */
module Changelog {
  import opened Wrappers
  import opened Text
  import opened ChangelogHeader
  import Versions

  datatype Chunk = Chunk(version: string, content: string)

  /** A header line: its index, the version it names and the offset of its start. */
  datatype HeaderPos = HeaderPos(line: nat, version: string, offset: nat)

  // ---------------------------------------------------------------------------
  // offsets and headers
  // ---------------------------------------------------------------------------

  /** The offset recorded for line `i`: the lengths of the earlier lines, each plus one
      for its line break. */
  function Offset(lines: seq<string>, i: nat): nat
    requires i <= |lines|
  {
    if i == 0 then 0 else Offset(lines, i - 1) + |lines[i - 1]| + 1
  }

  lemma {:induction false} OffsetMonotone(lines: seq<string>, i: nat, j: nat)
    requires i <= j <= |lines|
    ensures Offset(lines, i) + (j - i) <= Offset(lines, j)
    decreases j
  {
    if i < j {
      OffsetMonotone(lines, i, j - 1);
    }
  }

  /** The version line `i` opens a chunk with: the version it names, provided its
      markup puts it at a header position. */
  function HeaderMark(lines: seq<string>, i: nat): (m: Option<string>)
    requires i < |lines|
  {
    var version := ParseVersionFromLine(lines[i]);
    if version.Some? && IsHeaderPosition(i, lines) then version else None
  }

  /** The header mark of every line. */
  function Marks(lines: seq<string>): (ms: seq<Option<string>>)
    ensures |ms| == |lines|
  {
    seq(|lines|, i requires 0 <= i < |lines| => HeaderMark(lines, i))
  }

  /** The marked lines among the first `n`, in document order. */
  function Headers(lines: seq<string>, marks: seq<Option<string>>, n: nat): (hs: seq<HeaderPos>)
    requires |marks| == |lines| && n <= |lines|
    ensures |hs| <= n
    decreases n
  {
    if n == 0 then []
    else
      var hs := Headers(lines, marks, n - 1);
      if marks[n - 1].Some? then hs + [HeaderPos(n - 1, marks[n - 1].value, Offset(lines, n - 1))]
      else hs
  }

  /** The headers are exactly the marked lines, each once, in document order, with the
      version of its mark and the offset of its line. */
  lemma {:induction false} HeadersFacts(lines: seq<string>, marks: seq<Option<string>>, n: nat)
    requires |marks| == |lines| && n <= |lines|
    ensures HeadersOf(lines, marks, n, Headers(lines, marks, n))
    decreases n
  {
    if n > 0 {
      var hs := Headers(lines, marks, n - 1);
      HeadersFacts(lines, marks, n - 1);
      if marks[n - 1].Some? {
        var last := HeaderPos(n - 1, marks[n - 1].value, Offset(lines, n - 1));
        AppendHeader(lines, marks, n - 1, hs, last);
        assert Headers(lines, marks, n) == hs + [last];
      } else {
        SkipLine(lines, marks, n - 1, hs);
        assert Headers(lines, marks, n) == hs;
      }
    }
  }

  /** What `Headers` promises about the first `n` lines. */
  ghost predicate HeadersOf(lines: seq<string>, marks: seq<Option<string>>, n: nat, hs: seq<HeaderPos>)
    requires |marks| == |lines| && n <= |lines|
  {
    (forall k :: 0 <= k < |hs| ==>
      hs[k].line < n && marks[hs[k].line] == Some(hs[k].version) &&
      hs[k].offset == Offset(lines, hs[k].line)) &&
    (forall k, m :: 0 <= k < m < |hs| ==> hs[k].line < hs[m].line) &&
    (forall i :: 0 <= i < n && marks[i].Some? ==> exists k :: 0 <= k < |hs| && hs[k].line == i)
  }

  /** An unmarked line `n` adds no header. */
  lemma SkipLine(lines: seq<string>, marks: seq<Option<string>>, n: nat, hs: seq<HeaderPos>)
    requires |marks| == |lines| && n < |lines|
    requires HeadersOf(lines, marks, n, hs)
    requires marks[n].None?
    ensures HeadersOf(lines, marks, n + 1, hs)
  {
  }

  /** Appending the header of line `n` to the headers of the lines before it. */
  lemma AppendHeader(lines: seq<string>, marks: seq<Option<string>>, n: nat, hs: seq<HeaderPos>, last: HeaderPos)
    requires |marks| == |lines| && n < |lines|
    requires HeadersOf(lines, marks, n, hs)
    requires marks[n].Some? && last == HeaderPos(n, marks[n].value, Offset(lines, n))
    ensures HeadersOf(lines, marks, n + 1, hs + [last])
  {
    var r := hs + [last];
    assert forall k :: 0 <= k < |hs| ==> r[k] == hs[k];
    assert r[|hs|] == last;
  }

  // ---------------------------------------------------------------------------
  // chunks
  // ---------------------------------------------------------------------------

  /** Python's `t[a:b]` for non-negative bounds. */
  function PySlice(t: string, a: nat, b: nat): (r: string)
    ensures |r| <= |t|
  {
    var a' := if a < |t| then a else |t|;
    var b' := if b < |t| then b else |t|;
    if a' >= b' then [] else t[a'..b']
  }

  /** The line after header `h`, or the one after that when it is an underline. */
  function ContentLine(lines: seq<string>, h: nat): (cl: nat)
    requires h < |lines|
    ensures h + 1 <= cl <= h + 2
  {
    if h + 1 < |lines| && IsUnderline(Strip(lines[h + 1])) then h + 2 else h + 1
  }

  /** Where the content of header `h` starts. */
  function ContentStart(text: string, lines: seq<string>, h: nat): nat
    requires h < |lines|
  {
    var cl := ContentLine(lines, h);
    if cl < |lines| then Offset(lines, cl) else |text|
  }

  /** Where the content of the `idx`-th header ends: the next header's offset. */
  function ContentEnd(text: string, hs: seq<HeaderPos>, idx: nat): nat
    requires idx < |hs|
  {
    if idx + 1 < |hs| then hs[idx + 1].offset else |text|
  }

  /** The chunk of the `idx`-th header. */
  function ChunkAt(text: string, lines: seq<string>, hs: seq<HeaderPos>, idx: nat): Chunk
    requires idx < |hs|
    requires hs[idx].line < |lines|
  {
    Chunk(hs[idx].version,
          Strip(PySlice(text, ContentStart(text, lines, hs[idx].line), ContentEnd(text, hs, idx))))
  }

  /** One chunk per marked line of `lines`, in order. */
  function ChunksOf(text: string, lines: seq<string>, marks: seq<Option<string>>): (cs: seq<Chunk>)
    requires |marks| == |lines|
  {
    var hs := Headers(lines, marks, |lines|);
    HeadersFacts(lines, marks, |lines|);
    seq(|hs|, idx requires 0 <= idx < |hs| => ChunkAt(text, lines, hs, idx))
  }

  /** The chunks of a changelog: one per header line, in order. */
  function Chunks(text: string): (cs: seq<Chunk>)
    ensures |cs| <= |Lines(text)|
  {
    if IsBlank(text) then [] else ChunksOf(text, Lines(text), Marks(Lines(text)))
  }

  /** `chunk_changelog_by_version`: the three passes of the source are the three
      helper methods below. */
  method ChunkChangelogByVersion(text: string) returns (chunks: seq<Chunk>)
    ensures chunks == Chunks(text)
  {
    if IsBlank(text) {
      return [];
    }
    var lines := Lines(text);
    var offsets := LineOffsets(lines);
    var headerPositions := FindHeaders(lines, offsets);
    if |headerPositions| == 0 {
      return [];
    }
    HeadersFacts(lines, Marks(lines), |lines|);
    chunks := CollectChunks(text, lines, offsets, headerPositions);
  }

  /** The running character offset of each line. */
  method LineOffsets(lines: seq<string>) returns (offsets: seq<nat>)
    ensures |offsets| == |lines|
    ensures forall k :: 0 <= k < |lines| ==> offsets[k] == Offset(lines, k)
  {
    offsets := [];
    var pos := 0;
    for i := 0 to |lines|
      invariant |offsets| == i
      invariant forall k :: 0 <= k < i ==> offsets[k] == Offset(lines, k)
      invariant pos == Offset(lines, i)
    {
      ExtendOffsets(lines, offsets, i);
      offsets := offsets + [pos];
      pos := pos + |lines[i]| + 1;
    }
  }

  lemma ExtendOffsets(lines: seq<string>, offsets: seq<nat>, i: nat)
    requires i < |lines| && |offsets| == i
    requires forall k :: 0 <= k < i ==> offsets[k] == Offset(lines, k)
    ensures forall k :: 0 <= k < i + 1 ==> (offsets + [Offset(lines, i)])[k] == Offset(lines, k)
  {
  }

  /** The header lines, with the version each names and its offset. */
  method FindHeaders(lines: seq<string>, offsets: seq<nat>) returns (headerPositions: seq<HeaderPos>)
    requires |offsets| == |lines|
    requires forall k :: 0 <= k < |lines| ==> offsets[k] == Offset(lines, k)
    ensures headerPositions == Headers(lines, Marks(lines), |lines|)
  {
    headerPositions := [];
    for i := 0 to |lines|
      invariant headerPositions == Headers(lines, Marks(lines), i)
    {
      headerPositions := AddHeader(lines, offsets, headerPositions, i);
    }
  }

  /** The loop body of `FindHeaders`: adds line `i` when it is a header. */
  method AddHeader(lines: seq<string>, offsets: seq<nat>, hs: seq<HeaderPos>, i: nat)
    returns (hs': seq<HeaderPos>)
    requires |offsets| == |lines| && i < |lines|
    requires offsets[i] == Offset(lines, i)
    requires hs == Headers(lines, Marks(lines), i)
    ensures hs' == Headers(lines, Marks(lines), i + 1)
  {
    var version := HeaderMark(lines, i);
    ghost var marks := Marks(lines);
    assert marks[i] == version;
    HeadersStep(lines, marks, i);
    hs' := if version.Some? then hs + [HeaderPos(i, version.value, offsets[i])] else hs;
  }

  lemma HeadersStep(lines: seq<string>, marks: seq<Option<string>>, i: nat)
    requires |marks| == |lines| && i < |lines|
    ensures Headers(lines, marks, i + 1) == Headers(lines, marks, i) +
      (if marks[i].Some? then [HeaderPos(i, marks[i].value, Offset(lines, i))] else [])
  {
  }

  /** The chunk of every header: the stripped text from its content line to the next
      header. */
  method CollectChunks(text: string, lines: seq<string>, offsets: seq<nat>, hs: seq<HeaderPos>)
    returns (chunks: seq<Chunk>)
    requires |offsets| == |lines|
    requires forall k :: 0 <= k < |lines| ==> offsets[k] == Offset(lines, k)
    requires forall k :: 0 <= k < |hs| ==> hs[k].line < |lines|
    ensures |chunks| == |hs|
    ensures forall k :: 0 <= k < |hs| ==> chunks[k] == ChunkAt(text, lines, hs, k)
  {
    chunks := [];
    for idx := 0 to |hs|
      invariant |chunks| == idx
      invariant forall k :: 0 <= k < idx ==> chunks[k] == ChunkAt(text, lines, hs, k)
    {
      var h := hs[idx];
      var contentLine := ContentLine(lines, h.line);
      var contentStart := if contentLine < |lines| then offsets[contentLine] else |text|;
      var contentEnd := if idx + 1 < |hs| then hs[idx + 1].offset else |text|;
      var content := Strip(PySlice(text, contentStart, contentEnd));
      var chunk := Chunk(h.version, content);
      assert chunk == ChunkAt(text, lines, hs, idx) by {
        assert contentStart == ContentStart(text, lines, h.line);
        assert contentEnd == ContentEnd(text, hs, idx);
      }
      AppendChunk(chunks, chunk, text, lines, hs);
      chunks := chunks + [chunk];
    }
  }

  lemma AppendChunk(chunks: seq<Chunk>, chunk: Chunk, text: string, lines: seq<string>, hs: seq<HeaderPos>)
    requires |chunks| < |hs| && forall k :: 0 <= k < |hs| ==> hs[k].line < |lines|
    requires forall k :: 0 <= k < |chunks| ==> chunks[k] == ChunkAt(text, lines, hs, k)
    requires chunk == ChunkAt(text, lines, hs, |chunks|)
    ensures forall k :: 0 <= k <= |chunks| ==> (chunks + [chunk])[k] == ChunkAt(text, lines, hs, k)
  {
  }

  // ---------------------------------------------------------------------------
  // properties of the chunks
  // ---------------------------------------------------------------------------

  /** A line is a header iff it names a version and sits at a header position; the
      headers are listed once each, in document order, with the offset of their line. */
  lemma HeadersExact(lines: seq<string>, i: nat)
    requires i < |lines|
    ensures var hs := Headers(lines, Marks(lines), |lines|);
      (ParseVersionFromLine(lines[i]).Some? && IsHeaderPosition(i, lines)) <==>
      (exists k :: 0 <= k < |hs| && hs[k].line == i)
  {
    var marks := Marks(lines);
    HeadersFacts(lines, marks, |lines|);
    assert marks[i] == HeaderMark(lines, i);
  }

  /** Chunk `k` carries the version named by the `k`-th header line; that version is a
      substring of the line and a valid release of two or three segments. */
  lemma ChunkVersions(text: string, k: nat)
    requires k < |Chunks(text)|
    ensures !IsBlank(text)
    ensures var lines := Lines(text);
      var h := Headers(lines, Marks(lines), |lines|)[k].line;
      h < |lines| && ParseVersionFromLine(lines[h]) == Some(Chunks(text)[k].version) &&
      IsHeaderPosition(h, lines) && Contains(lines[h], Chunks(text)[k].version)
    ensures Versions.ParseRelease(Chunks(text)[k].version).Some?
  {
    var lines := Lines(text);
    var marks := Marks(lines);
    var hs := Headers(lines, marks, |lines|);
    assert !IsBlank(text);
    MarkOfHeader(lines, marks, k);
    var h := hs[k].line;
    assert Chunks(text)[k] == ChunkAt(text, lines, hs, k);
    assert marks[h] == HeaderMark(lines, h);
    ParsedVersionInLine(lines[h]);
    VersionShapeParses(hs[k].version);
  }

  /** The `k`-th header sits on a line whose mark is its version. */
  lemma MarkOfHeader(lines: seq<string>, marks: seq<Option<string>>, k: nat)
    requires |marks| == |lines| && k < |Headers(lines, marks, |lines|)|
    ensures var hs := Headers(lines, marks, |lines|);
      hs[k].line < |lines| && marks[hs[k].line] == Some(hs[k].version)
  {
    HeadersFacts(lines, marks, |lines|);
  }

  /** A line that names a version at a header position opens a chunk that carries
      that version. */
  lemma MarkedLineOpensChunk(text: string, i: nat)
    requires i < |Lines(text)| && HeaderMark(Lines(text), i).Some?
    ensures exists k :: 0 <= k < |Chunks(text)| && Chunks(text)[k].version == HeaderMark(Lines(text), i).value
  {
    var lines := Lines(text);
    var marks := Marks(lines);
    MarkedLineNotBlank(text, i);
    var k := HeaderOfLine(lines, i);
    ChunkOfHeader(text, k);
  }

  /** A Markdown heading that names a version opens a chunk with that version. */
  lemma HeadingOpensChunk(text: string, i: nat, h: nat, b: nat, bracket: bool, word: string, vee: bool,
                          ver: string, rest: string)
    requires i < |Lines(text)| && Lines(text)[i] == HeaderLine(h, b, bracket, word, vee, ver, rest)
    requires 1 <= h <= 6 && b <= 2 && (word == [] || IsPrefixWord(word))
    requires IsVersionShape(ver) && IsVersionTail(rest) && WordCount(Leftover(rest)) <= 2
    ensures exists k :: 0 <= k < |Chunks(text)| && Chunks(text)[k].version == ver
  {
    HeaderLineIsHeader(i, Lines(text), h, b, bracket, word, vee, ver, rest);
    ParseHeaderLine(h, b, bracket, word, vee, ver, rest);
    MarkedLineOpensChunk(text, i);
  }

  /** The header of a marked line, found among the headers. */
  lemma HeaderOfLine(lines: seq<string>, i: nat) returns (k: nat)
    requires i < |lines| && HeaderMark(lines, i).Some?
    ensures var hs := Headers(lines, Marks(lines), |lines|);
      k < |hs| && hs[k].line == i && hs[k].version == HeaderMark(lines, i).value
  {
    var marks := Marks(lines);
    assert marks[i] == HeaderMark(lines, i);
    k := HeaderOfMark(lines, marks, i);
  }

  /** The header of a marked line, for any marking. */
  lemma HeaderOfMark(lines: seq<string>, marks: seq<Option<string>>, i: nat) returns (k: nat)
    requires |marks| == |lines| && i < |lines| && marks[i].Some?
    ensures var hs := Headers(lines, marks, |lines|);
      k < |hs| && hs[k].line == i && hs[k].version == marks[i].value
  {
    var hs := Headers(lines, marks, |lines|);
    HeadersFacts(lines, marks, |lines|);
    k :| 0 <= k < |hs| && hs[k].line == i;
  }

  /** Chunk `k` is built from the `k`-th header. */
  lemma ChunkOfHeader(text: string, k: nat)
    requires !IsBlank(text) && k < |Headers(Lines(text), Marks(Lines(text)), |Lines(text)|)|
    ensures var hs := Headers(Lines(text), Marks(Lines(text)), |Lines(text)|);
      k < |Chunks(text)| && Chunks(text)[k].version == hs[k].version
  {
    var lines := Lines(text);
    var hs := Headers(lines, Marks(lines), |lines|);
    HeadersFacts(lines, Marks(lines), |lines|);
    assert Chunks(text)[k] == ChunkAt(text, lines, hs, k);
  }

  /** A text with a marked line is not blank. */
  lemma MarkedLineNotBlank(text: string, i: nat)
    requires i < |Lines(text)| && HeaderMark(Lines(text), i).Some?
    ensures !IsBlank(text)
  {
    var line := Lines(text)[i];
    ParsedVersionInLine(line);
    LineInText(text, i);
    ContainsTrans(text, line, ParseVersionFromLine(line).value);
    ContainedVersionNotBlank(text, ParseVersionFromLine(line).value);
  }

  /** A text that contains a version is not blank. */
  lemma ContainedVersionNotBlank(text: string, v: string)
    requires IsVersionShape(v) && Contains(text, v)
    ensures !IsBlank(text)
  {
    VersionStartsWithDigit(v);
    var p :| 0 <= p <= |text| && OccursAt(text, v, p);
    assert text[p] == text[p..p + |v|][0] == v[0];
  }

  /** Without marked lines there are no headers. */
  lemma {:induction false} NoMarksNoHeaders(lines: seq<string>, marks: seq<Option<string>>, n: nat)
    requires |marks| == |lines| && n <= |lines|
    requires forall i :: 0 <= i < n ==> marks[i].None?
    ensures Headers(lines, marks, n) == []
    decreases n
  {
    if n > 0 {
      NoMarksNoHeaders(lines, marks, n - 1);
    }
  }

  /** A text with no header line has no chunks. */
  lemma NoHeadersNoChunks(text: string)
    requires forall i :: 0 <= i < |Lines(text)| ==> HeaderMark(Lines(text), i).None?
    ensures Chunks(text) == []
  {
    var lines := Lines(text);
    NoMarksNoHeaders(lines, Marks(lines), |lines|);
  }

  /** Every marked line is something other than an underline. */
  ghost predicate MarksSkipUnderlines(lines: seq<string>, marks: seq<Option<string>>) {
    |marks| == |lines| &&
    forall i {:trigger marks[i]} :: 0 <= i < |lines| && marks[i].Some? ==> !IsUnderline(Strip(lines[i]))
  }

  /** A line naming a version is never an underline, so neither is a header line. */
  lemma HeaderLinesAreNotUnderlines(lines: seq<string>)
    ensures MarksSkipUnderlines(lines, Marks(lines))
  {
    var marks := Marks(lines);
    forall i | 0 <= i < |lines| && marks[i].Some? ensures !IsUnderline(Strip(lines[i])) {
      assert marks[i] == HeaderMark(lines, i);
      VersionLineIsNotUnderline(lines[i]);
    }
  }

  /** The content of a chunk starts no later than the next header's offset: the
      underline skipped after a header is never itself a header. */
  lemma ContentStartBeforeEnd(text: string, lines: seq<string>, marks: seq<Option<string>>,
                              hs: seq<HeaderPos>, idx: nat)
    requires MarksSkipUnderlines(lines, marks)
    requires HeadersOf(lines, marks, |lines|, hs)
    requires idx + 1 < |hs|
    ensures ContentStart(text, lines, hs[idx].line) <= ContentEnd(text, hs, idx)
  {
    var h := hs[idx].line;
    var h' := hs[idx + 1].line;
    var cl := ContentLine(lines, h);
    assert h < h' < |lines| && marks[h'].Some?;
    if cl == h + 2 {
      assert IsUnderline(Strip(lines[h + 1]));
      assert h' != h + 1;
    }
    OffsetMonotone(lines, cl, h');
    assert ContentStart(text, lines, h) == Offset(lines, cl);
    assert ContentEnd(text, hs, idx) == Offset(lines, h');
  }

  lemma SliceInWindow(t: string, a: nat, b: nat, lo: nat, hi: nat)
    requires lo <= hi <= |t|
    requires lo <= a && (if b < |t| then b else |t|) == hi
    requires (if a < |t| then a else |t|) <= hi
    ensures Contains(t[lo..hi], PySlice(t, a, b))
  {
    var a' := if a < |t| then a else |t|;
    var w := t[lo..hi];
    if a' >= hi {
      assert OccursAt(w, [], 0);
    } else {
      assert t[a'..hi] == w[a' - lo..hi - lo];
      SliceContained(w, a' - lo, hi - lo);
    }
  }

  /** Where the text after header `k`'s line starts, capped at the end of the text. */
  function AfterHeaderLine(text: string, lines: seq<string>, hs: seq<HeaderPos>, k: nat): nat
    requires k < |hs| && hs[k].line < |lines|
  {
    var lo := Offset(lines, hs[k].line) + |lines[hs[k].line]| + 1;
    if lo < |text| then lo else |text|
  }

  /** Where the next header's line starts (or the text ends), capped at the end of the
      text. */
  function BeforeNextHeader(text: string, hs: seq<HeaderPos>, k: nat): nat
    requires k < |hs|
  {
    if k + 1 < |hs| && hs[k + 1].offset < |text| then hs[k + 1].offset else |text|
  }

  /** The slice a chunk's content is stripped from lies inside the window between
      its header line and the next header. */
  lemma WindowBounds(text: string, lines: seq<string>, marks: seq<Option<string>>, hs: seq<HeaderPos>, k: nat)
    requires MarksSkipUnderlines(lines, marks)
    requires HeadersOf(lines, marks, |lines|, hs)
    requires k < |hs|
    ensures var s := ContentStart(text, lines, hs[k].line);
      var e := ContentEnd(text, hs, k);
      var lo := AfterHeaderLine(text, lines, hs, k);
      var hi := BeforeNextHeader(text, hs, k);
      lo <= hi <= |text| && lo <= s && (if e < |text| then e else |text|) == hi &&
      (if s < |text| then s else |text|) <= hi
  {
    var h := hs[k].line;
    var cl := ContentLine(lines, h);
    assert Offset(lines, h + 1) == Offset(lines, h) + |lines[h]| + 1;
    if cl < |lines| {
      OffsetMonotone(lines, h + 1, cl);
    }
    if k + 1 < |hs| {
      ContentStartBeforeEnd(text, lines, marks, hs, k);
      OffsetMonotone(lines, h + 1, hs[k + 1].line);
    }
  }

  /** The content of chunk `k` is a substring of the text lying after its header line
      and before the next header's offset (or the end of the text for the last chunk). */
  lemma ContentBetweenHeaders(text: string, lines: seq<string>, marks: seq<Option<string>>, k: nat)
    requires MarksSkipUnderlines(lines, marks)
    requires k < |ChunksOf(text, lines, marks)|
    ensures HeadersOf(lines, marks, |lines|, Headers(lines, marks, |lines|))
    ensures var hs := Headers(lines, marks, |lines|);
      var lo := AfterHeaderLine(text, lines, hs, k);
      var hi := BeforeNextHeader(text, hs, k);
      lo <= hi <= |text| && Contains(text[lo..hi], ChunksOf(text, lines, marks)[k].content)
  {
    var hs := Headers(lines, marks, |lines|);
    HeadersFacts(lines, marks, |lines|);
    var lo := AfterHeaderLine(text, lines, hs, k);
    var hi := BeforeNextHeader(text, hs, k);
    var s := ContentStart(text, lines, hs[k].line);
    var e := ContentEnd(text, hs, k);
    WindowBounds(text, lines, marks, hs, k);
    var slice := PySlice(text, s, e);
    SliceInWindow(text, s, e, lo, hi);
    StripContained(slice);
    ContainsTrans(text[lo..hi], slice, Strip(slice));
    assert ChunksOf(text, lines, marks)[k].content == Strip(slice);
  }

  // ---------------------------------------------------------------------------
  // line offsets of a text with single-character line breaks
  // ---------------------------------------------------------------------------

  /** Every line break of `text` is `\n`. */
  predicate NewlineOnly(text: string) {
    forall k :: 0 <= k < |text| && IsLineBreak(text[k]) ==> text[k] == '\n'
  }

  lemma {:induction false} OffsetCons(x: string, rest: seq<string>, i: nat)
    requires i <= |rest|
    ensures Offset([x] + rest, i + 1) == |x| + 1 + Offset(rest, i)
    decreases i
  {
    if i > 0 {
      OffsetCons(x, rest, i - 1);
      assert ([x] + rest)[i] == rest[i - 1];
    }
  }

  lemma NewlineOnlySuffix(text: string, j: nat)
    requires NewlineOnly(text) && j <= |text|
    ensures NewlineOnly(text[j..])
  {
    forall t | 0 <= t < |text[j..]| && IsLineBreak(text[j..][t]) ensures text[j..][t] == '\n' {
      assert text[j..][t] == text[j + t];
    }
  }

  lemma LinesAtNewline(text: string, k: nat)
    requires k == NextBreak(text, 0) < |text| && text[k] == '\n'
    ensures Lines(text) == [text[..k]] + Lines(text[k + 1..])
  {
    assert BreakWidth(text, k) == 1;
  }

  /** Line `l` of `text` starts at `o` and is followed by `\n` unless it ends the text. */
  predicate LineAt(text: string, o: nat, l: string) {
    o + |l| <= |text| && text[o..o + |l|] == l && (o + |l| < |text| ==> text[o + |l|] == '\n')
  }

  lemma LineAtShift(text: string, j: nat, o: nat, l: string)
    requires j <= |text| && LineAt(text[j..], o, l)
    ensures LineAt(text, j + o, l)
  {
    SliceOfSuffix(text, j, o, o + |l|);
    if j + o + |l| < |text| {
      assert text[j..][o + |l|] == text[j + o + |l|];
    }
  }

  lemma WholeTextLine(text: string)
    requires text != [] && NextBreak(text, 0) == |text|
    ensures Lines(text) == [text]
    ensures LineAt(text, Offset(Lines(text), 0), Lines(text)[0])
  {
    assert text[0..|text|] == text;
  }

  lemma FirstLineAt(text: string, k: nat)
    requires k == NextBreak(text, 0) < |text| && text[k] == '\n'
    ensures |Lines(text)| >= 1
    ensures LineAt(text, Offset(Lines(text), 0), Lines(text)[0])
  {
    LinesAtNewline(text, k);
    assert text[0..k] == text[..k];
  }

  /** A line of the text after the first break is a line of the whole text, once the
      first line and its break are put in front. */
  lemma ConsLineAt(text: string, k: nat, lr: seq<string>, i: nat)
    requires k < |text| && 0 < i <= |lr|
    requires LineAt(text[k + 1..], Offset(lr, i - 1), lr[i - 1])
    ensures LineAt(text, Offset([text[..k]] + lr, i), ([text[..k]] + lr)[i])
  {
    assert LineAt(text, k + 1 + Offset(lr, i - 1), lr[i - 1]) by {
      LineAtShift(text, k + 1, Offset(lr, i - 1), lr[i - 1]);
    }
    LineAfterFirst(text, k, lr, i);
  }

  /** The offsets of `[first] + lr` are those of `lr` moved past the first line and its break. */
  lemma LineAfterFirst(text: string, k: nat, lr: seq<string>, i: nat)
    requires k < |text| && 0 < i <= |lr|
    requires LineAt(text, k + 1 + Offset(lr, i - 1), lr[i - 1])
    ensures LineAt(text, Offset([text[..k]] + lr, i), ([text[..k]] + lr)[i])
  {
    OffsetCons(text[..k], lr, i - 1);
    assert ([text[..k]] + lr)[i] == lr[i - 1];
  }

  lemma LaterLineAt(text: string, k: nat, i: nat)
    requires k == NextBreak(text, 0) < |text| && text[k] == '\n'
    requires 0 < i < |Lines(text)|
    requires LineAt(text[k + 1..], Offset(Lines(text[k + 1..]), i - 1), Lines(text[k + 1..])[i - 1])
    ensures LineAt(text, Offset(Lines(text), i), Lines(text)[i])
  {
    LinesAtNewline(text, k);
    ConsLineAt(text, k, Lines(text[k + 1..]), i);
  }

  /** With `\n` line breaks only, the recorded offset of line `i` is where the line
      really starts, and a `\n` follows it unless it ends the text. */
  lemma {:induction false} OffsetExact(text: string, i: nat)
    requires NewlineOnly(text) && i < |Lines(text)|
    ensures LineAt(text, Offset(Lines(text), i), Lines(text)[i])
    decreases |text|
  {
    var k := NextBreak(text, 0);
    if k == |text| {
      WholeTextLine(text);
    } else {
      assert text[k] == '\n';
      if i == 0 {
        FirstLineAt(text, k);
      } else {
        LinesAtNewline(text, k);
        NewlineOnlySuffix(text, k + 1);
        OffsetExact(text[k + 1..], i - 1);
        LaterLineAt(text, k, i);
      }
    }
  }

  // ---------------------------------------------------------------------------
  // filter_chunks_by_version_range
  // ---------------------------------------------------------------------------

  /** `current < v <= latest` for the chunk's version; a version that does not parse is
      never in range. */
  predicate InRange(c: Chunk, current: Versions.Release, latest: Versions.Release) {
    match Versions.ParseRelease(c.version)
    case Some(v) => Versions.Cmp(current, v) < 0 && Versions.Cmp(v, latest) <= 0
    case None => false
  }

  /** The chunks in range, in their original order. */
  function FilterInRange(chunks: seq<Chunk>, current: Versions.Release, latest: Versions.Release): (r: seq<Chunk>)
    ensures |r| <= |chunks|
    decreases |chunks|
  {
    if chunks == [] then []
    else
      var init := FilterInRange(chunks[..|chunks| - 1], current, latest);
      if InRange(chunks[|chunks| - 1], current, latest) then init + [chunks[|chunks| - 1]] else init
  }

  /** One more chunk: it is kept iff it is in range. */
  lemma FilterStep(chunks: seq<Chunk>, i: nat, current: Versions.Release, latest: Versions.Release)
    requires i < |chunks|
    ensures FilterInRange(chunks[..i + 1], current, latest) ==
      FilterInRange(chunks[..i], current, latest) +
      (if InRange(chunks[i], current, latest) then [chunks[i]] else [])
  {
    assert chunks[..i + 1][..i] == chunks[..i];
  }

  /** What `filter_chunks_by_version_range` returns or raises: nothing to filter gives no
      chunks; a bound that is not a release version raises; otherwise the chunks in range. */
  function FilterOutcome(chunks: seq<Chunk>, currentVersion: string, latestVersion: string):
    (r: Result<seq<Chunk>, string>)
  {
    if chunks == [] then Success([])
    else
      var current := Versions.ParseRelease(currentVersion);
      var latest := Versions.ParseRelease(latestVersion);
      if current.None? || latest.None? then Failure("invalid version bound")
      else Success(FilterInRange(chunks, current.value, latest.value))
  }

  /** `filter_chunks_by_version_range`.  An empty input returns at once.  Otherwise both
      bounds must be versions: when one is not, the source falls back to comparing
      integer tuples with parsed versions, which fails, so the model reports a failure. */
  method FilterChunksByVersionRange(chunks: seq<Chunk>, currentVersion: string, latestVersion: string)
    returns (r: Result<seq<Chunk>, string>)
    ensures r == FilterOutcome(chunks, currentVersion, latestVersion)
    ensures chunks == [] ==> r == Success([])
    ensures (chunks != [] && (Versions.ParseRelease(currentVersion).None? ||
                              Versions.ParseRelease(latestVersion).None?)) ==> r.Failure?
    ensures (chunks != [] && Versions.ParseRelease(currentVersion).Some? &&
             Versions.ParseRelease(latestVersion).Some?) ==>
      r == Success(FilterInRange(chunks,
        Versions.ParseRelease(currentVersion).value, Versions.ParseRelease(latestVersion).value))
  {
    if chunks == [] {
      return Success([]);
    }
    var current := Versions.ParseRelease(currentVersion);
    var latest := Versions.ParseRelease(latestVersion);
    if current.None? || latest.None? {
      return Failure("invalid version bound");
    }
    var filtered := KeepInRange(chunks, current.value, latest.value);
    return Success(filtered);
  }

  /** The loop of `filter_chunks_by_version_range`: keeps, in order, each chunk whose
      version parses and lies in `(current, latest]`; the others are skipped. */
  method KeepInRange(chunks: seq<Chunk>, current: Versions.Release, latest: Versions.Release)
    returns (filtered: seq<Chunk>)
    ensures filtered == FilterInRange(chunks, current, latest)
  {
    filtered := [];
    for i := 0 to |chunks|
      invariant filtered == FilterInRange(chunks[..i], current, latest)
    {
      FilterStep(chunks, i, current, latest);
      if InRange(chunks[i], current, latest) {
        filtered := filtered + [chunks[i]];
      }
    }
    assert chunks[..|chunks|] == chunks;
  }

  /** A chunk is kept iff it is among the input and in range. */
  lemma {:induction false} FilterMembership(chunks: seq<Chunk>, current: Versions.Release, latest: Versions.Release, c: Chunk)
    ensures c in FilterInRange(chunks, current, latest) <==> c in chunks && InRange(c, current, latest)
    decreases |chunks|
  {
    if chunks != [] {
      var init := chunks[..|chunks| - 1];
      FilterMembership(init, current, latest, c);
      assert chunks == init + [chunks[|chunks| - 1]];
    }
  }

  /** The output is an order-preserving subsequence of the input. */
  lemma {:induction false} FilterIsSubsequence(chunks: seq<Chunk>, current: Versions.Release, latest: Versions.Release)
    ensures IsSubsequence(FilterInRange(chunks, current, latest), chunks)
    decreases |chunks|
  {
    if chunks != [] {
      var init := chunks[..|chunks| - 1];
      var r := FilterInRange(init, current, latest);
      FilterIsSubsequence(init, current, latest);
      if InRange(chunks[|chunks| - 1], current, latest) {
        assert (r + [chunks[|chunks| - 1]])[..|r|] == r;
      }
    }
  }

  /** An empty range `(v, v]` keeps nothing, also when the bounds differ only by
      trailing zeros. */
  lemma {:induction false} FilterEmptyRange(chunks: seq<Chunk>, current: Versions.Release, latest: Versions.Release)
    requires Versions.Cmp(current, latest) == 0
    ensures FilterInRange(chunks, current, latest) == []
    decreases |chunks|
  {
    if chunks != [] {
      FilterEmptyRange(chunks[..|chunks| - 1], current, latest);
      var c := chunks[|chunks| - 1];
      match Versions.ParseRelease(c.version)
      case Some(v) => Versions.EmptyInterval(current, v, latest);
      case None =>
    }
  }

  /** For a chunk whose version is the canonical text of a release, being in range is
      exactly `current < v <= latest` on releases. */
  lemma InRangeRendered(v: Versions.Release, notes: string, current: Versions.Release, latest: Versions.Release)
    requires |v| >= 1
    ensures InRange(Chunk(Versions.Render(v), notes), current, latest) <==>
      Versions.Cmp(current, v) < 0 && Versions.Cmp(v, latest) <= 0
  {
    Versions.RenderParse(v);
  }
}
