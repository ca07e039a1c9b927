/** The document library hook (hooks/useDocuments.ts): uploaded documents
    are cut into fixed-width chunks of 1000 characters, kept in a list that
    upload appends to and delete filters, and searched by lower-cased
    keyword inclusion. Reading files and persisting the list are left to the
    caller: an upload receives the file's text, name, size and media type
    and the id the clock would give it. */
module DocumentStore {
  import opened Types
  import opened Text

  /** Characters per stored chunk. */
  const ChunkSize := 1000

  /** The most chunk texts a search returns. */
  const SearchLimit := 5

  /** The number of fixed-width chunks of a text of `length` characters. */
  function ChunkCount(length: nat): nat {
    (length + ChunkSize - 1) / ChunkSize
  }

  function Min(a: int, b: int): int {
    if a < b then a else b
  }

  /** The chunk that starts at character offset `i`. */
  function ChunkAt(content: string, fileName: string, i: nat): DocumentChunk
    requires i <= |content|
  {
    DocumentChunk(
      fileName + "-chunk-" + NatToString(i),
      content[i..Min(i + ChunkSize, |content|)],
      [],
      ChunkMetadata(fileName, None, Some("Part " + NatToString(i / ChunkSize + 1))))
  }

  /** `createDocumentChunks(content, fileName)`: chunk `k` starts at offset
      `1000 * k`, its id names that offset (not `k`), its section is
      "Part k+1", its source is the file name, and its embedding is empty. */
  function DocumentChunksOf(content: string, fileName: string): (chunks: seq<DocumentChunk>)
    ensures |chunks| == ChunkCount(|content|)
    ensures forall k :: 0 <= k < |chunks| ==>
      && ChunkSize * k < |content|
      && chunks[k] == ChunkAt(content, fileName, ChunkSize * k)
  {
    seq(ChunkCount(|content|), k requires 0 <= k < ChunkCount(|content|) => ChunkAt(content, fileName, ChunkSize * k))
  }

  /** The loop of `createDocumentChunks`, stepping `i` by the chunk size. */
  method CreateDocumentChunks(content: string, fileName: string) returns (chunks: seq<DocumentChunk>)
    ensures chunks == DocumentChunksOf(content, fileName)
  {
    chunks := [];
    var i := 0;
    while i < |content|
      invariant i == ChunkSize * |chunks|
      invariant |chunks| <= ChunkCount(|content|)
      invariant forall k :: 0 <= k < |chunks| ==> chunks[k] == DocumentChunksOf(content, fileName)[k]
      decreases |content| - i
    {
      var chunkContent := content[i..Min(i + ChunkSize, |content|)];
      chunks := chunks + [DocumentChunk(
        fileName + "-chunk-" + NatToString(i),
        chunkContent,
        [],
        ChunkMetadata(fileName, None, Some("Part " + NatToString(i / ChunkSize + 1))))];
      i := i + ChunkSize;
    }
  }

  /** The texts of `chunks`, in order. */
  function Contents(chunks: seq<DocumentChunk>): (texts: seq<string>)
    ensures |texts| == |chunks|
    ensures forall k :: 0 <= k < |chunks| ==> texts[k] == chunks[k].content
  {
    seq(|chunks|, k requires 0 <= k < |chunks| => chunks[k].content)
  }

  /** `texts` are the consecutive fixed-width windows of `content`. */
  predicate Windows(content: string, texts: seq<string>) {
    forall k :: 0 <= k < |texts| ==>
      ChunkSize * k < |content| && texts[k] == content[ChunkSize * k..Min(ChunkSize * k + ChunkSize, |content|)]
  }

  /** The first `k` windows, put together, are the first `1000 * k`
      characters (or all of them). */
  lemma {:induction false} WindowPrefixConcat(content: string, texts: seq<string>, k: nat)
    requires Windows(content, texts) && k <= |texts|
    ensures Concat(texts[..k]) == content[..Min(ChunkSize * k, |content|)]
    decreases k
  {
    if k == 0 {
      assert texts[..0] == [];
    } else {
      var start := ChunkSize * (k - 1);
      var stop := Min(start + ChunkSize, |content|);
      assert start < |content| && texts[k - 1] == content[start..stop];
      assert ChunkSize * k == start + ChunkSize;
      calc {
        Concat(texts[..k]);
        { assert texts[..k] == texts[..k - 1] + [texts[k - 1]];
          ConcatSnoc(texts[..k - 1], texts[k - 1]); }
        Concat(texts[..k - 1]) + texts[k - 1];
        { WindowPrefixConcat(content, texts, k - 1); }
        content[..start] + content[start..stop];
        content[..stop];
      }
    }
  }

  /** The chunk texts, put together in order, give back the content. */
  lemma ChunksRebuildContent(content: string, fileName: string)
    ensures Concat(Contents(DocumentChunksOf(content, fileName))) == content
  {
    var texts := Contents(DocumentChunksOf(content, fileName));
    assert Windows(content, texts);
    WindowPrefixConcat(content, texts, |texts|);
    assert texts[..|texts|] == texts;
    assert ChunkSize * |texts| >= |content|;
    assert content[..|content|] == content;
  }

  /** There are `ceil(|content| / 1000)` chunks, none for empty content;
      every chunk but the last holds exactly 1000 characters and the last
      holds between 1 and 1000. */
  lemma ChunkSizes(content: string, fileName: string)
    ensures var chunks := DocumentChunksOf(content, fileName);
      && (chunks == [] <==> content == [])
      && (forall k :: 0 <= k < |chunks| - 1 ==> |chunks[k].content| == ChunkSize)
      && (chunks != [] ==> 1 <= |chunks[|chunks| - 1].content| <= ChunkSize)
  {
    var chunks := DocumentChunksOf(content, fileName);
    forall k | 0 <= k < |chunks| - 1 ensures |chunks[k].content| == ChunkSize {
      assert ChunkSize * (k + 1) < |content|;
    }
  }

  /** `reduce` over the query words: one point per word the chunk includes. */
  function Score(chunkContent: string, words: seq<string>): nat
    decreases |words|
  {
    if words == [] then 0
    else Score(chunkContent, words[..|words| - 1]) + (if Contains(chunkContent, words[|words| - 1]) then 1 else 0)
  }

  /** The score is positive exactly when the chunk includes some query word. */
  lemma {:induction false} ScorePositiveIff(chunkContent: string, words: seq<string>)
    ensures Score(chunkContent, words) > 0 <==> exists w :: w in words && Contains(chunkContent, w)
    decreases |words|
  {
    if words != [] {
      var init := words[..|words| - 1];
      var last := words[|words| - 1];
      ScorePositiveIff(chunkContent, init);
      assert words == init + [last];
      if exists w :: w in words && Contains(chunkContent, w) {
        var w :| w in words && Contains(chunkContent, w);
        if w != last {
          assert w in init;
        }
      }
    }
  }

  /** `query.toLowerCase().split(" ")`. */
  function QueryWords(query: string): seq<string> {
    SplitOnChar(ToLower(query), ' ')
  }

  predicate Relevant(chunk: DocumentChunk, words: seq<string>) {
    Score(ToLower(chunk.content), words) > 0
  }

  /** Every chunk of `documents`, document by document, in chunk order. */
  function AllChunks(documents: seq<Document>): seq<DocumentChunk>
    decreases |documents|
  {
    if documents == [] then []
    else AllChunks(documents[..|documents| - 1]) + documents[|documents| - 1].chunks
  }

  /** The texts of the relevant chunks, in order. */
  function Matching(chunks: seq<DocumentChunk>, words: seq<string>): seq<string>
    decreases |chunks|
  {
    if chunks == [] then []
    else
      var last := chunks[|chunks| - 1];
      Matching(chunks[..|chunks| - 1], words) + (if Relevant(last, words) then [last.content] else [])
  }

  /** What `searchDocuments(query)` returns. */
  function SearchSpec(documents: seq<Document>, query: string): (r: seq<string>)
    ensures |r| <= SearchLimit
  {
    var hits := Matching(AllChunks(documents), QueryWords(query));
    hits[..Min(SearchLimit, |hits|)]
  }

  lemma MatchingSnoc(chunks: seq<DocumentChunk>, c: DocumentChunk, words: seq<string>)
    ensures Matching(chunks + [c], words) == Matching(chunks, words) + (if Relevant(c, words) then [c.content] else [])
  {
    assert (chunks + [c])[..|chunks|] == chunks;
  }

  /** One more chunk of the current document scanned. */
  lemma ScanStep(before: seq<DocumentChunk>, chunks: seq<DocumentChunk>, c: nat, words: seq<string>)
    requires c < |chunks|
    ensures Matching(before + chunks[..c + 1], words) ==
      Matching(before + chunks[..c], words) + (if Relevant(chunks[c], words) then [chunks[c].content] else [])
  {
    assert before + chunks[..c + 1] == (before + chunks[..c]) + [chunks[c]];
    MatchingSnoc(before + chunks[..c], chunks[c], words);
  }

  /** One more document scanned. */
  lemma DocumentStep(documents: seq<Document>, d: nat)
    requires d < |documents|
    ensures AllChunks(documents[..d + 1]) == AllChunks(documents[..d]) + documents[d].chunks[..|documents[d].chunks|]
  {
    assert documents[..d + 1][..d] == documents[..d];
    assert documents[d].chunks[..|documents[d].chunks|] == documents[d].chunks;
  }

  /** The nested `forEach` loops of `searchDocuments`, then the slice. */
  method SearchDocuments(documents: seq<Document>, query: string) returns (results: seq<string>)
    ensures results == SearchSpec(documents, query)
  {
    var relevantChunks: seq<string> := [];
    var queryWords := QueryWords(query);
    for d := 0 to |documents|
      invariant relevantChunks == Matching(AllChunks(documents[..d]), queryWords)
    {
      var doc := documents[d];
      assert AllChunks(documents[..d]) + doc.chunks[..0] == AllChunks(documents[..d]);
      for c := 0 to |doc.chunks|
        invariant relevantChunks == Matching(AllChunks(documents[..d]) + doc.chunks[..c], queryWords)
      {
        var chunk := doc.chunks[c];
        var chunkContent := ToLower(chunk.content);
        var relevanceScore := Score(chunkContent, queryWords);
        ScanStep(AllChunks(documents[..d]), doc.chunks, c, queryWords);
        if relevanceScore > 0 {
          relevantChunks := relevantChunks + [chunk.content];
        }
      }
      DocumentStep(documents, d);
    }
    assert documents[..|documents|] == documents;
    results := relevantChunks[..Min(SearchLimit, |relevantChunks|)];
  }

  /** A text is a hit exactly when it is the text of a relevant chunk. */
  lemma {:induction false} MatchingMembers(chunks: seq<DocumentChunk>, words: seq<string>)
    ensures forall x :: x in Matching(chunks, words) <==>
      exists c :: c in chunks && Relevant(c, words) && c.content == x
    decreases |chunks|
  {
    if chunks != [] {
      var init := chunks[..|chunks| - 1];
      var last := chunks[|chunks| - 1];
      MatchingMembers(init, words);
      assert chunks == init + [last];
      forall x ensures x in Matching(chunks, words) <==>
        exists c :: c in chunks && Relevant(c, words) && c.content == x
      {
        if exists c :: c in chunks && Relevant(c, words) && c.content == x {
          var c :| c in chunks && Relevant(c, words) && c.content == x;
          if c != last {
            assert c in init;
          }
        }
      }
    }
  }

  /** Hits of consecutive lists of chunks come in the same order. */
  lemma {:induction false} MatchingAppend(a: seq<DocumentChunk>, b: seq<DocumentChunk>, words: seq<string>)
    ensures Matching(a + b, words) == Matching(a, words) + Matching(b, words)
    decreases |b|
  {
    if b == [] {
      assert a + b == a;
    } else {
      var init := b[..|b| - 1];
      var last := b[|b| - 1];
      MatchingAppend(a, init, words);
      assert a + b == (a + init) + [last];
      assert b == init + [last];
      MatchingSnoc(a + init, last, words);
      MatchingSnoc(init, last, words);
    }
  }

  lemma AllChunksSnoc(documents: seq<Document>, doc: Document)
    ensures AllChunks(documents + [doc]) == AllChunks(documents) + doc.chunks
  {
    assert (documents + [doc])[..|documents|] == documents;
  }

  /** The chunks of appended document lists are appended. */
  lemma {:induction false} AllChunksAppend(a: seq<Document>, b: seq<Document>)
    ensures AllChunks(a + b) == AllChunks(a) + AllChunks(b)
    decreases |b|
  {
    if b == [] {
      assert a + b == a;
    } else {
      var init := b[..|b| - 1];
      var last := b[|b| - 1];
      assert a + b == (a + init) + [last];
      assert b == init + [last];
      calc {
        AllChunks(a + b);
        AllChunks((a + init) + [last]);
        { AllChunksSnoc(a + init, last); }
        AllChunks(a + init) + last.chunks;
        { AllChunksAppend(a, init); }
        AllChunks(a) + AllChunks(init) + last.chunks;
        { AllChunksSnoc(init, last); }
        AllChunks(a) + AllChunks(b);
      }
    }
  }

  /** Every text a search returns is the text of a stored chunk whose
      lower-cased form includes one of the query words. */
  lemma SearchSound(documents: seq<Document>, query: string)
    ensures forall x :: x in SearchSpec(documents, query) ==>
      exists c, w :: (c in AllChunks(documents) && c.content == x &&
        w in QueryWords(query) && Contains(ToLower(c.content), w))
  {
    var words := QueryWords(query);
    var hits := Matching(AllChunks(documents), words);
    MatchingMembers(AllChunks(documents), words);
    forall x | x in SearchSpec(documents, query)
      ensures exists c, w :: (c in AllChunks(documents) && c.content == x &&
        w in words && Contains(ToLower(c.content), w))
    {
      assert x in hits;
      var c :| c in AllChunks(documents) && Relevant(c, words) && c.content == x;
      ScorePositiveIff(ToLower(c.content), words);
      var w :| w in words && Contains(ToLower(c.content), w);
    }
  }

  /** The search is the first five hits of the documents in order: the hits of
      the first documents come before those of the later ones, and when there
      are at most five hits all of them are returned. */
  lemma SearchInDocumentOrder(a: seq<Document>, b: seq<Document>, query: string)
    ensures var words := QueryWords(query);
      var hits := Matching(AllChunks(a), words) + Matching(AllChunks(b), words);
      && SearchSpec(a + b, query) == hits[..Min(SearchLimit, |hits|)]
      && (|hits| <= SearchLimit ==> SearchSpec(a + b, query) == hits)
  {
    AllChunksAppend(a, b);
    MatchingAppend(AllChunks(a), AllChunks(b), QueryWords(query));
  }

  /** Every chunk includes the empty word. */
  lemma EmptyWordMatchesAll(chunks: seq<DocumentChunk>, words: seq<string>)
    requires "" in words
    ensures Matching(chunks, words) == Contents(chunks)
    decreases |chunks|
  {
    if chunks != [] {
      var last := chunks[|chunks| - 1];
      EmptyWordMatchesAll(chunks[..|chunks| - 1], words);
      ContainsEmpty(ToLower(last.content));
      ScorePositiveIff(ToLower(last.content), words);
      assert Contents(chunks) == Contents(chunks[..|chunks| - 1]) + [last.content];
    }
  }

  /** A doubled separator yields an empty piece. */
  lemma {:induction false} DoubledSeparatorGivesEmptyPiece(s: string, sep: char, i: nat)
    requires i + 1 < |s| && s[i] == sep && s[i + 1] == sep
    ensures "" in SplitOnChar(s, sep)
    decreases |s|
  {
    var k := IndexOf(s, sep);
    var rest := s[k + 1..];
    assert SplitOnChar(s, sep) == [s[..k]] + SplitOnChar(rest, sep);
    if k < i {
      DoubledSeparatorGivesEmptyPiece(rest, sep, i - k - 1);
    } else {
      assert k == i;
      assert IndexOf(rest, sep) == 0;
      assert SplitOnChar(rest, sep)[0] == "";
    }
  }

  /** An empty query, or one holding two spaces in a row, has the empty word;
      the search then returns the first five chunk texts of the library. */
  lemma EmptyWordQueries(documents: seq<Document>, query: string)
    requires query == "" || exists i :: OccursAt(query, "  ", i)
    ensures "" in QueryWords(query)
    ensures var all := Contents(AllChunks(documents));
      SearchSpec(documents, query) == all[..Min(SearchLimit, |all|)]
  {
    if query != "" {
      var i :| OccursAt(query, "  ", i);
      assert query[i..i + 2] == "  ";
      assert query[i] == ' ' && query[i + 1] == ' ';
      var lower := ToLower(query);
      assert lower[i] == ' ' && lower[i + 1] == ' ';
      DoubledSeparatorGivesEmptyPiece(lower, ' ', i);
    } else {
      assert QueryWords(query) == [""];
    }
    EmptyWordMatchesAll(AllChunks(documents), QueryWords(query));
  }

  /** `documents.filter((doc) => doc.id !== documentId)`. */
  function WithoutId(documents: seq<Document>, documentId: string): seq<Document>
    decreases |documents|
  {
    if documents == [] then []
    else (if documents[0].id != documentId then [documents[0]] else []) + WithoutId(documents[1..], documentId)
  }

  /** Deleting keeps exactly the documents with another id. */
  lemma {:induction false} WithoutIdMembers(documents: seq<Document>, documentId: string)
    ensures forall d :: d in WithoutId(documents, documentId) <==> d in documents && d.id != documentId
    decreases |documents|
  {
    if documents != [] {
      WithoutIdMembers(documents[1..], documentId);
      assert documents == [documents[0]] + documents[1..];
    }
  }

  /** Deleting works list piece by list piece, so the kept documents keep
      their order. */
  lemma {:induction false} WithoutIdAppend(a: seq<Document>, b: seq<Document>, documentId: string)
    ensures WithoutId(a + b, documentId) == WithoutId(a, documentId) + WithoutId(b, documentId)
    decreases |a|
  {
    if a == [] {
      assert a + b == b;
    } else {
      WithoutIdAppend(a[1..], b, documentId);
      assert (a + b)[1..] == a[1..] + b;
    }
  }

  /** Deleting an id nobody has changes nothing. */
  lemma {:induction false} WithoutAbsentId(documents: seq<Document>, documentId: string)
    requires forall d :: d in documents ==> d.id != documentId
    ensures WithoutId(documents, documentId) == documents
    decreases |documents|
  {
    if documents != [] {
      assert forall d :: d in documents[1..] ==> d in documents;
      WithoutAbsentId(documents[1..], documentId);
    }
  }

  /** The document `uploadDocument` builds: `size` falls back to 0 and the
      media type to "text/plain" when missing or empty. */
  function NewDocument(id: string, name: string, content: string, size: Option<nat>, mimeType: Option<string>): Document {
    Document(id, name, content, DocumentChunksOf(content, name),
             if size.Some? then size.value else 0,
             if mimeType.Some? && mimeType.value != "" then mimeType.value else "text/plain")
  }

  /** Uploading a document with a fresh id and deleting that id gives the
      library back. */
  lemma UploadThenDelete(documents: seq<Document>, doc: Document)
    requires forall d :: d in documents ==> d.id != doc.id
    ensures WithoutId(documents + [doc], doc.id) == documents
  {
    WithoutIdAppend(documents, [doc], doc.id);
    WithoutAbsentId(documents, doc.id);
    assert WithoutId([doc], doc.id) == [];
  }

  /** The `documents` state of the hook. */
  class DocumentLibrary {
    var documents: seq<Document>

    constructor ()
      ensures documents == []
    {
      documents := [];
    }

    /** `uploadDocument`, after the file is read: the new document is appended. */
    method UploadDocument(id: string, name: string, content: string, size: Option<nat>, mimeType: Option<string>)
      returns (doc: Document)
      modifies this
      ensures doc == NewDocument(id, name, content, size, mimeType)
      ensures documents == old(documents) + [doc]
    {
      var chunks := CreateDocumentChunks(content, name);
      doc := Document(id, name, content, chunks,
                      if size.Some? then size.value else 0,
                      if mimeType.Some? && mimeType.value != "" then mimeType.value else "text/plain");
      documents := documents + [doc];
    }

    /** `deleteDocument(documentId)`. */
    method DeleteDocument(documentId: string)
      modifies this
      ensures documents == WithoutId(old(documents), documentId)
    {
      documents := WithoutId(documents, documentId);
    }

    /** `searchDocuments(query)` over the library. */
    method Search(query: string) returns (results: seq<string>)
      ensures results == SearchSpec(documents, query)
    {
      results := SearchDocuments(documents, query);
    }
  }
}
