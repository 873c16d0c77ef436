/** The changelog vector store: cutting version sections into embedding-sized slices,
    upserting them under `dep:version:index` ids, choosing how many results a query asks
    for, the empty-result short cut, and the name of the collection. The embedding
    function, the similarity search and the language model are parameters. */
module Rag {
  import opened Wrappers
  import opened Text
  import opened Schemas
  import Changelog

  /** The width of one embedding slice. */
  const EmbedChunkChars: nat := 4000

  /** How many results a query asks for when the caller does not say: the configured
      maximum, 20 by default. */
  const DefaultNResults: Option<int> := Some(20)

  // ---------------------------------------------------------------------------
  // slicing
  // ---------------------------------------------------------------------------

  function Min(a: int, b: int): int {
    if a <= b then a else b
  }

  /** The slices `content[i:i + 4000]` for `i` in `range(0, max(len(content), 1), 4000)`. */
  function SubContents(content: string): (parts: seq<string>)
    ensures |parts| >= 1
    decreases |content|
  {
    if |content| <= EmbedChunkChars then [content]
    else [content[..EmbedChunkChars]] + SubContents(content[EmbedChunkChars..])
  }

  /** Slice `k` is the window of the content starting at `4000 * k`, cut at the end of the
      content. */
  lemma {:induction false} SubContentAt(content: string, k: nat)
    requires k < |SubContents(content)|
    ensures k * EmbedChunkChars <= |content| || (k == 0 && content == [])
    ensures SubContents(content)[k] ==
            content[Min(k * EmbedChunkChars, |content|)..Min(k * EmbedChunkChars + EmbedChunkChars, |content|)]
    decreases |content|
  {
    if |content| > EmbedChunkChars && k > 0 {
      var rest := content[EmbedChunkChars..];
      SubContentAt(rest, k - 1);
      var a := (k - 1) * EmbedChunkChars;
      assert k * EmbedChunkChars == a + EmbedChunkChars;
      var lo, hi := Min(a, |rest|), Min(a + EmbedChunkChars, |rest|);
      SliceOfSuffix(content, EmbedChunkChars, lo, hi);
      assert EmbedChunkChars + lo == Min(k * EmbedChunkChars, |content|);
      assert EmbedChunkChars + hi == Min(k * EmbedChunkChars + EmbedChunkChars, |content|);
    }
  }

  /** One slice per 4000 characters, rounded up; empty content still gives one slice. */
  lemma {:induction false} SubContentsCount(content: string)
    ensures |SubContents(content)| ==
            if |content| == 0 then 1 else (|content| + EmbedChunkChars - 1) / EmbedChunkChars
    decreases |content|
  {
    if |content| > EmbedChunkChars {
      SubContentsCount(content[EmbedChunkChars..]);
    }
  }

  /** Content of at most one slice's width is kept whole; 10000 characters give 3 slices. */
  lemma SubContentsSmall(content: string)
    ensures |content| <= EmbedChunkChars ==> SubContents(content) == [content]
    ensures |content| == 10000 ==> |SubContents(content)| == 3
  {
    SubContentsCount(content);
  }

  /** Every slice fits the width, every slice but the last fills it, and only empty
      content gives an empty slice. */
  lemma {:induction false} SubContentsWidths(content: string, k: nat)
    requires k < |SubContents(content)|
    ensures |SubContents(content)[k]| <= EmbedChunkChars
    ensures k < |SubContents(content)| - 1 ==> |SubContents(content)[k]| == EmbedChunkChars
    ensures SubContents(content)[k] == [] ==> content == []
    decreases |content|
  {
    if |content| > EmbedChunkChars && k > 0 {
      SubContentsWidths(content[EmbedChunkChars..], k - 1);
    }
  }

  /** No content is lost or repeated: the slices concatenate to the content. */
  lemma {:induction false} SubContentsRoundTrip(content: string)
    ensures Join(SubContents(content), "") == content
    decreases |content|
  {
    if |content| > EmbedChunkChars {
      var rest := content[EmbedChunkChars..];
      SubContentsRoundTrip(rest);
      assert SubContents(content)[1..] == SubContents(rest);
      assert content == content[..EmbedChunkChars] + "" + rest;
    }
  }

  // ---------------------------------------------------------------------------
  // ids and the store
  // ---------------------------------------------------------------------------

  /** A stored document: its vector, its text and its metadata. */
  datatype Entry = Entry(embedding: seq<real>, document: string, depName: string, version: string)

  /** `f"{dep_name}:{version}:{idx}"` */
  function DocId(dep: string, version: string, idx: nat): (id: string)
    ensures StartsWith(id, dep + ":")
  {
    dep + ":" + version + ":" + NatToString(idx)
  }

  /** In `x:d` with a digit tail `d`, the colon after `x` is the last one. */
  lemma ColonBeforeDigits(x: string, d: string)
    requires AllChars(d, IsDigit)
    ensures (x + ":" + d)[|x|] == ':'
    ensures forall p :: |x| < p < |x + ":" + d| ==> (x + ":" + d)[p] != ':'
  {
    forall p | |x| < p < |x + ":" + d|
      ensures (x + ":" + d)[p] != ':'
    {
      assert (x + ":" + d)[p] == d[p - |x| - 1];
    }
  }

  /** Splitting at the last colon: when the tails are digits, the heads agree. */
  lemma LastColon(a: string, d1: string, b: string, d2: string)
    requires AllChars(d1, IsDigit) && AllChars(d2, IsDigit)
    requires a + ":" + d1 == b + ":" + d2
    ensures a == b && d1 == d2
  {
    var s := a + ":" + d1;
    ColonBeforeDigits(a, d1);
    ColonBeforeDigits(b, d2);
    assert |a| == |b|;
    assert a == s[..|a|];
    assert b == s[..|b|];
    assert d1 == s[|a| + 1..];
    assert d2 == s[|b| + 1..];
  }

  /** Different slices of one dependency's version, or slices of different versions,
      never share an id. */
  lemma DocIdInjective(dep: string, v: string, i: nat, w: string, j: nat)
    requires DocId(dep, v, i) == DocId(dep, w, j)
    ensures v == w && i == j
  {
    assert dep + ":" + v + ":" + NatToString(i) == (dep + ":" + v) + ":" + NatToString(i);
    assert dep + ":" + w + ":" + NatToString(j) == (dep + ":" + w) + ":" + NatToString(j);
    LastColon(dep + ":" + v, NatToString(i), dep + ":" + w, NatToString(j));
    NatToStringInjective(i, j);
    var p := dep + ":";
    assert p + v == dep + ":" + v;
    assert p + w == dep + ":" + w;
    assert v == (p + v)[|p|..];
    assert w == (p + w)[|p|..];
  }

  /** The store after upserting the slices of one version section, in order. */
  function PutSlices(m: map<string, Entry>, dep: string, version: string, parts: seq<string>,
                     embed: string -> seq<real>): (r: map<string, Entry>)
  {
    if |parts| == 0 then m
    else
      var n := |parts| - 1;
      PutSlices(m, dep, version, parts[..n], embed)[DocId(dep, version, n) := Entry(embed(parts[n]), parts[n], dep, version)]
  }

  /** The store after upserting every section's slices, section by section. */
  function PutChunks(m: map<string, Entry>, dep: string, chunks: seq<Changelog.Chunk>,
                     embed: string -> seq<real>): (r: map<string, Entry>)
  {
    if |chunks| == 0 then m
    else
      var c := chunks[|chunks| - 1];
      PutSlices(PutChunks(m, dep, chunks[..|chunks| - 1], embed), dep, c.version, SubContents(c.content), embed)
  }

  /** `id` is the id of some slice of some section. */
  predicate IsChunkId(id: string, dep: string, chunks: seq<Changelog.Chunk>) {
    exists ci: nat, idx: nat :: ci < |chunks| && idx < |SubContents(chunks[ci].content)| &&
      id == DocId(dep, chunks[ci].version, idx)
  }

  lemma {:induction false} PutSlicesAt(m: map<string, Entry>, dep: string, version: string, parts: seq<string>,
                                      embed: string -> seq<real>, idx: nat)
    requires idx < |parts|
    ensures DocId(dep, version, idx) in PutSlices(m, dep, version, parts, embed)
    ensures PutSlices(m, dep, version, parts, embed)[DocId(dep, version, idx)] ==
            Entry(embed(parts[idx]), parts[idx], dep, version)
    decreases |parts|
  {
    var n := |parts| - 1;
    if idx < n {
      PutSlicesAt(m, dep, version, parts[..n], embed, idx);
      if DocId(dep, version, n) == DocId(dep, version, idx) {
        DocIdInjective(dep, version, n, version, idx);
      }
    }
  }

  lemma {:induction false} PutSlicesElsewhere(m: map<string, Entry>, dep: string, version: string,
                                             parts: seq<string>, embed: string -> seq<real>, id: string)
    requires forall idx: nat :: idx < |parts| ==> id != DocId(dep, version, idx)
    ensures id in PutSlices(m, dep, version, parts, embed) <==> id in m
    ensures id in m ==> PutSlices(m, dep, version, parts, embed)[id] == m[id]
    decreases |parts|
  {
    if |parts| > 0 {
      PutSlicesElsewhere(m, dep, version, parts[..|parts| - 1], embed, id);
    }
  }

  /** Upserting never touches an entry whose id is not one of the slices' ids. */
  lemma {:induction false} PutChunksElsewhere(m: map<string, Entry>, dep: string, chunks: seq<Changelog.Chunk>,
                                             embed: string -> seq<real>, id: string)
    requires !IsChunkId(id, dep, chunks)
    ensures id in PutChunks(m, dep, chunks, embed) <==> id in m
    ensures id in m ==> PutChunks(m, dep, chunks, embed)[id] == m[id]
    decreases |chunks|
  {
    if |chunks| > 0 {
      var n := |chunks| - 1;
      var c := chunks[n];
      var init := chunks[..n];
      assert !IsChunkId(id, dep, init) by {
        forall ci: nat, idx: nat | ci < |init| && idx < |SubContents(init[ci].content)|
          ensures id != DocId(dep, init[ci].version, idx)
        {
          assert chunks[ci] == init[ci];
        }
      }
      PutChunksElsewhere(m, dep, init, embed, id);
      assert forall idx: nat :: idx < |SubContents(c.content)| ==> id != DocId(dep, c.version, idx);
      PutSlicesElsewhere(PutChunks(m, dep, init, embed), dep, c.version, SubContents(c.content), embed, id);
    }
  }

  /** A section no later section shares a version with has all its slices stored, each
      with the dependency and version as metadata. */
  lemma {:induction false} PutChunksStored(m: map<string, Entry>, dep: string, chunks: seq<Changelog.Chunk>,
                                          embed: string -> seq<real>, ci: nat, idx: nat)
    requires ci < |chunks| && idx < |SubContents(chunks[ci].content)|
    requires forall cj :: ci < cj < |chunks| ==> chunks[cj].version != chunks[ci].version
    ensures var id := DocId(dep, chunks[ci].version, idx);
      var part := SubContents(chunks[ci].content)[idx];
      id in PutChunks(m, dep, chunks, embed) &&
      PutChunks(m, dep, chunks, embed)[id] == Entry(embed(part), part, dep, chunks[ci].version)
    decreases |chunks|
  {
    var n := |chunks| - 1;
    var c := chunks[n];
    var init := chunks[..n];
    var before := PutChunks(m, dep, init, embed);
    if ci == n {
      PutSlicesAt(before, dep, c.version, SubContents(c.content), embed, idx);
    } else {
      assert init[ci] == chunks[ci];
      PutChunksStored(m, dep, init, embed, ci, idx);
      var id := DocId(dep, chunks[ci].version, idx);
      forall j: nat | j < |SubContents(c.content)|
        ensures id != DocId(dep, c.version, j)
      {
        if id == DocId(dep, c.version, j) {
          DocIdInjective(dep, chunks[ci].version, idx, c.version, j);
        }
      }
      PutSlicesElsewhere(before, dep, c.version, SubContents(c.content), embed, id);
    }
  }

  /** What a slice id holds after the upserts does not depend on the store before them. */
  lemma {:induction false} PutChunksIndependent(m1: map<string, Entry>, m2: map<string, Entry>, dep: string,
                                               chunks: seq<Changelog.Chunk>, embed: string -> seq<real>, id: string)
    requires IsChunkId(id, dep, chunks)
    ensures id in PutChunks(m1, dep, chunks, embed) && id in PutChunks(m2, dep, chunks, embed)
    ensures PutChunks(m1, dep, chunks, embed)[id] == PutChunks(m2, dep, chunks, embed)[id]
    decreases |chunks|
  {
    var n := |chunks| - 1;
    var c := chunks[n];
    var init := chunks[..n];
    var b1 := PutChunks(m1, dep, init, embed);
    var b2 := PutChunks(m2, dep, init, embed);
    var parts := SubContents(c.content);
    if exists j: nat :: j < |parts| && id == DocId(dep, c.version, j) {
      var j: nat :| j < |parts| && id == DocId(dep, c.version, j);
      PutSlicesAt(b1, dep, c.version, parts, embed, j);
      PutSlicesAt(b2, dep, c.version, parts, embed, j);
    } else {
      var ci: nat, idx: nat :| ci < |chunks| && idx < |SubContents(chunks[ci].content)| &&
        id == DocId(dep, chunks[ci].version, idx);
      if ci == n {
        assert false;
      }
      assert init[ci] == chunks[ci];
      PutChunksIndependent(m1, m2, dep, init, embed, id);
      PutSlicesElsewhere(b1, dep, c.version, parts, embed, id);
      PutSlicesElsewhere(b2, dep, c.version, parts, embed, id);
    }
  }

  /** Upserts are idempotent: embedding the same sections again changes nothing. */
  lemma ReembedIdempotent(m: map<string, Entry>, dep: string, chunks: seq<Changelog.Chunk>,
                          embed: string -> seq<real>)
    ensures PutChunks(PutChunks(m, dep, chunks, embed), dep, chunks, embed) == PutChunks(m, dep, chunks, embed)
  {
    var once := PutChunks(m, dep, chunks, embed);
    var twice := PutChunks(once, dep, chunks, embed);
    forall id | id in twice || id in once
      ensures id in twice && id in once && twice[id] == once[id]
    {
      if IsChunkId(id, dep, chunks) {
        PutChunksIndependent(once, m, dep, chunks, embed, id);
      } else {
        PutChunksElsewhere(once, dep, chunks, embed, id);
      }
    }
  }

  /** The vector store collection, as a map from document id to entry. */
  class Store {
    var entries: map<string, Entry>

    constructor()
      ensures entries == map[]
    {
      entries := map[];
    }

    /** `collection.upsert`: the entry under `id` is replaced or added. */
    method Upsert(id: string, e: Entry)
      modifies this
      ensures entries == old(entries)[id := e]
    {
      entries := entries[id := e];
    }

    /** `embed_changelog`: every slice of every section upserted, in order. */
    method EmbedChangelog(dep: string, chunks: seq<Changelog.Chunk>, embed: string -> seq<real>)
      modifies this
      ensures entries == PutChunks(old(entries), dep, chunks, embed)
    {
      for ci := 0 to |chunks|
        invariant entries == PutChunks(old(entries), dep, chunks[..ci], embed)
      {
        var chunk := chunks[ci];
        var parts := SubContents(chunk.content);
        ghost var before := entries;
        for idx := 0 to |parts|
          invariant entries == PutSlices(before, dep, chunk.version, parts[..idx], embed)
        {
          assert parts[..idx + 1][..idx] == parts[..idx];
          var embedding := embed(parts[idx]);
          Upsert(DocId(dep, chunk.version, idx), Entry(embedding, parts[idx], dep, chunk.version));
        }
        assert parts[..|parts|] == parts;
        assert chunks[..ci + 1][..ci] == chunks[..ci];
      }
      assert chunks[..|chunks|] == chunks;
    }

    /** The ids stored for a dependency: `collection.get(where={"dep_name": dep})`. */
    function StoredFor(dep: string): (ids: set<string>)
      reads this
      ensures forall id :: id in ids <==> id in entries && entries[id].depName == dep
    {
      set id | id in entries && entries[id].depName == dep
    }

    /** `query`: the documents found for the chosen count; none gives the empty result
        without consulting the model, otherwise the model's breaking changes and
        confidence with the documents as sources. */
    method Query(queryText: string, dep: string, nResults: Option<int>,
                 retrieve: (map<string, Entry>, string, string, int) -> seq<string>,
                 analyze: string -> ChangelogAnalysis)
      returns (r: RagQueryResult)
      ensures var docs := retrieve(entries, queryText, dep, ResultCount(nResults, |StoredFor(dep)|));
        (docs == [] ==> r == RagQueryResult([], 0.0, [])) &&
        (docs != [] ==>
          var a := analyze(AnalysisPrompt(dep, docs));
          r == RagQueryResult(a.breakingChanges, a.confidence, docs))
    {
      var n := ResultCount(nResults, |StoredFor(dep)|);
      var documents := retrieve(entries, queryText, dep, n);
      if documents == [] {
        return RagQueryResult([], 0.0, []);
      }
      var analysis := analyze(AnalysisPrompt(dep, documents));
      r := RagQueryResult(analysis.breakingChanges, analysis.confidence, documents);
    }
  }

  /** `n_results`: an explicit count is used as given; none means every stored document
      of the dependency, and at least one. */
  function ResultCount(nResults: Option<int>, stored: nat): (n: int)
    ensures nResults.Some? ==> n == nResults.value
    ensures nResults.None? ==> n >= 1 && n >= stored && (stored > 0 ==> n == stored)
  {
    match nResults
    case Some(k) => k
    case None => if stored < 1 then 1 else stored
  }

  const DocSeparator: string := "\n\n---\n\n"

  /** The user message: the dependency, then the documents joined by the separator. */
  function AnalysisPrompt(dep: string, docs: seq<string>): (p: string)
  {
    "Analyze these changelog excerpts for " + dep + ":\n\n" + Join(docs, DocSeparator)
  }

  /** Every retrieved document is in the prompt. */
  lemma PromptHoldsDocuments(dep: string, docs: seq<string>, k: nat)
    requires k < |docs|
    ensures Contains(AnalysisPrompt(dep, docs), docs[k])
  {
    var head := "Analyze these changelog excerpts for " + dep + ":\n\n";
    var body := Join(docs, DocSeparator);
    JoinContainsPart(docs, DocSeparator, k);
    SuffixContained(head + body, |head|);
    assert (head + body)[|head|..] == body;
    ContainsTrans(head + body, body, docs[k]);
  }

  // ---------------------------------------------------------------------------
  // the collection name
  // ---------------------------------------------------------------------------

  predicate IsNameSeparator(c: char) {
    c == '/' || c == '-' || c == '.'
  }

  /** The embedding model in use: the local one when local models are chosen. */
  function ActiveEmbeddingModel(useLocal: bool, localModel: string, remoteModel: string): (m: string)
  {
    if useLocal then localModel else remoteModel
  }

  /** The model name with `/`, `-` and `.` replaced by `_`. */
  function SafeModel(model: string): (s: string)
  {
    ReplaceChar(ReplaceChar(ReplaceChar(model, '/', '_'), '-', '_'), '.', '_')
  }

  /** `get_collection`'s name: `changelogs_` and the model name made safe. */
  function CollectionName(model: string): (name: string)
    ensures StartsWith(name, "changelogs_") && |name| == 11 + |model|
  {
    "changelogs_" + SafeModel(model)
  }

  /** The name keeps the model name character by character, with every separator turned
      into `_`, so no separator is left. */
  lemma CollectionNameChars(model: string)
    ensures |CollectionName(model)| == 11 + |model|
    ensures forall k :: 0 <= k < |model| ==>
      CollectionName(model)[11 + k] == if IsNameSeparator(model[k]) then '_' else model[k]
    ensures forall k :: 11 <= k < |CollectionName(model)| ==> !IsNameSeparator(CollectionName(model)[k])
  {
    var s := SafeModel(model);
    assert forall k :: 0 <= k < |model| ==> s[k] == if IsNameSeparator(model[k]) then '_' else model[k];
  }

  /** Models whose safe names differ get different collections. */
  lemma DistinctModelsDistinctCollections(a: string, b: string)
    requires SafeModel(a) != SafeModel(b)
    ensures CollectionName(a) != CollectionName(b)
  {
    assert SafeModel(a) == CollectionName(a)[11..];
    assert SafeModel(b) == CollectionName(b)[11..];
  }

  /** The default local and hosted embedding models never share a collection. */
  lemma LocalAndRemoteDiffer()
    ensures CollectionName(ActiveEmbeddingModel(true, "nomic-embed-text", "text-embedding-3-small")) !=
            CollectionName(ActiveEmbeddingModel(false, "nomic-embed-text", "text-embedding-3-small"))
  {
    CollectionNameChars("nomic-embed-text");
    CollectionNameChars("text-embedding-3-small");
  }
}
