/** `findRelevantChunks` of the chat screen (app/index.tsx): with no stored
    chunks it answers `[]` at once; otherwise it embeds the query, scores every
    stored chunk against it, sorts stably by descending score (`toSorted` is
    stable) and keeps the first `topK`. The embedding provider is the oracle
    `embed`, and the score of a chunk is the abstract `similarity` of the
    query embedding and the chunk's embedding (cosine similarity in the
    source). */
module Retrieval {
  import opened Types
  import opened Ingestion

  /** The default `topK` of `findRelevantChunks`. */
  const DefaultTopK := 3

  /** A stored chunk with its score for one query (`{...chunk, similarity}`). */
  datatype ScoredChunk = ScoredChunk(chunk: EmbeddedChunk, similarity: real)

  /** The answer of `findRelevantChunks` together with the texts it sent to the
      embedding provider (one query text, or none when it stopped early). */
  datatype RetrievalResult = RetrievalResult(results: seq<ScoredChunk>, embeddingRequests: seq<string>)

  /** Position `p` comes before position `q` in the stable descending order of
      `keys`: a higher score first, and on a tie the earlier position first. */
  predicate RankedBefore(keys: seq<real>, p: nat, q: nat)
    requires p < |keys| && q < |keys|
  {
    keys[p] > keys[q] || (keys[p] == keys[q] && p < q)
  }

  /** `order` lists positions of `keys`, each ranked before every later one. */
  ghost predicate RankedPositions(keys: seq<real>, order: seq<nat>) {
    && (forall i :: 0 <= i < |order| ==> order[i] < |keys|)
    && (forall i, j :: 0 <= i < j < |order| ==> RankedBefore(keys, order[i], order[j]))
  }

  /** `order` is the stable descending order of `keys`: every position exactly
      once (the ranking is strict, so no position repeats), ranked. */
  ghost predicate IsStableDescendingOrder(keys: seq<real>, order: seq<nat>) {
    |order| == |keys| && RankedPositions(keys, order)
  }

  /** Inserts position `p` after every position whose score is not lower. */
  function InsertRanked(keys: seq<real>, p: nat, order: seq<nat>): (r: seq<nat>)
    requires p < |keys|
    requires forall i :: 0 <= i < |order| ==> order[i] < |keys|
    ensures |r| == |order| + 1
    ensures forall x :: x in r <==> x in order || x == p
    decreases |order|
  {
    if order == [] then [p]
    else if keys[order[0]] >= keys[p] then [order[0]] + InsertRanked(keys, p, order[1..])
    else [p] + order
  }

  lemma {:induction false} InsertRankedKeepsOrder(keys: seq<real>, p: nat, order: seq<nat>)
    requires p < |keys|
    requires RankedPositions(keys, order)
    requires forall i :: 0 <= i < |order| ==> order[i] < p
    ensures RankedPositions(keys, InsertRanked(keys, p, order))
    decreases |order|
  {
    if order != [] {
      var r := InsertRanked(keys, p, order);
      if keys[order[0]] >= keys[p] {
        var rest := order[1..];
        assert RankedPositions(keys, rest) by {
          forall i, j | 0 <= i < j < |rest| ensures RankedBefore(keys, rest[i], rest[j]) {
            assert rest[i] == order[i + 1] && rest[j] == order[j + 1];
          }
        }
        InsertRankedKeepsOrder(keys, p, rest);
        var tail := InsertRanked(keys, p, rest);
        assert r == [order[0]] + tail;
        forall j | 0 <= j < |tail| ensures RankedBefore(keys, order[0], tail[j]) {
          assert tail[j] in tail;
          if tail[j] != p {
            var l :| 0 <= l < |rest| && rest[l] == tail[j];
            assert rest[l] == order[l + 1];
          }
        }
        forall i, j | 0 <= i < j < |r| ensures RankedBefore(keys, r[i], r[j]) {
          if i > 0 {
            assert r[i] == tail[i - 1] && r[j] == tail[j - 1];
          } else {
            assert r[j] == tail[j - 1];
          }
        }
      } else {
        assert r == [p] + order;
        forall j | 0 <= j < |order| ensures RankedBefore(keys, p, order[j]) {
          if j > 0 {
            assert RankedBefore(keys, order[0], order[j]);
          }
        }
        forall i, j | 0 <= i < j < |r| ensures RankedBefore(keys, r[i], r[j]) {
          if i > 0 {
            assert r[i] == order[i - 1] && r[j] == order[j - 1];
          } else {
            assert r[j] == order[j - 1];
          }
        }
      }
    }
  }

  /** The first `n` positions of `keys` in the stable descending order. */
  function Rank(keys: seq<real>, n: nat): (order: seq<nat>)
    requires n <= |keys|
    ensures |order| == n
    ensures forall i :: 0 <= i < |order| ==> order[i] < n
    decreases n
  {
    if n == 0 then []
    else
      var order := Rank(keys, n - 1);
      var r := InsertRanked(keys, n - 1, order);
      assert forall i :: 0 <= i < |r| ==> r[i] in order || r[i] == n - 1;
      r
  }

  /** `Rank` is the stable descending order (what `toSorted` with the
      comparator `b.similarity - a.similarity` produces). */
  lemma {:induction false} RankIsStableDescending(keys: seq<real>, n: nat)
    requires n <= |keys|
    ensures RankedPositions(keys, Rank(keys, n))
    ensures n == |keys| ==> IsStableDescendingOrder(keys, Rank(keys, n))
    decreases n
  {
    if n > 0 {
      RankIsStableDescending(keys, n - 1);
      InsertRankedKeepsOrder(keys, n - 1, Rank(keys, n - 1));
    }
  }

  /** The stored chunks scored against the query embedding. */
  function ScoreAll(chunks: seq<EmbeddedChunk>, queryEmbedding: Embedding, similarity: (Embedding, Embedding) -> real): (scored: seq<ScoredChunk>)
    ensures |scored| == |chunks|
    ensures forall i :: 0 <= i < |chunks| ==>
              scored[i] == ScoredChunk(chunks[i], similarity(queryEmbedding, chunks[i].embedding))
  {
    seq(|chunks|, i requires 0 <= i < |chunks| => ScoredChunk(chunks[i], similarity(queryEmbedding, chunks[i].embedding)))
  }

  function Similarities(scored: seq<ScoredChunk>): (keys: seq<real>)
    ensures |keys| == |scored|
    ensures forall i :: 0 <= i < |scored| ==> keys[i] == scored[i].similarity
  {
    seq(|scored|, i requires 0 <= i < |scored| => scored[i].similarity)
  }

  /** `scored` rearranged in the stable descending order of its scores. */
  function SortBySimilarity(scored: seq<ScoredChunk>): (sorted: seq<ScoredChunk>)
    ensures |sorted| == |scored|
  {
    var order := Rank(Similarities(scored), |scored|);
    seq(|scored|, i requires 0 <= i < |scored| => scored[order[i]])
  }

  /** `findRelevantChunks(query, topK)` over the screen's `documentChunks`.
      With no stored chunks the answer is `[]` and the provider is not asked
      to embed the query; when the query embedding fails the answer is `[]`;
      otherwise the query was sent exactly once. */
  function FindRelevantChunks(documentChunks: seq<EmbeddedChunk>, query: string, topK: nat,
                              embed: string -> Option<Embedding>,
                              similarity: (Embedding, Embedding) -> real): (r: RetrievalResult)
    ensures documentChunks == [] ==> r.results == [] && r.embeddingRequests == []
    ensures documentChunks != [] ==> r.embeddingRequests == [query]
    ensures embed(query).None? ==> r.results == []
    ensures |r.results| <= topK
  {
    if |documentChunks| == 0 then RetrievalResult([], [])
    else match embed(query)
      case None => RetrievalResult([], [query])
      case Some(queryEmbedding) =>
        var sorted := SortBySimilarity(ScoreAll(documentChunks, queryEmbedding, similarity));
        RetrievalResult(sorted[..if topK < |sorted| then topK else |sorted|], [query])
  }

  /** With stored chunks and a query embedding, the answer holds
      `min(topK, |documentChunks|)` entries, each a stored chunk with its own
      score; the entries are exactly the first ones of a stable descending
      order of all scored chunks, so their scores do not increase and equal
      scores keep the stored order. */
  lemma RetrievalRanksTopK(documentChunks: seq<EmbeddedChunk>, query: string, topK: nat,
                           embed: string -> Option<Embedding>,
                           similarity: (Embedding, Embedding) -> real)
    requires documentChunks != [] && embed(query).Some?
    ensures var r := FindRelevantChunks(documentChunks, query, topK, embed, similarity).results;
      var q := embed(query).value;
      var scored := ScoreAll(documentChunks, q, similarity);
      && |r| == (if topK < |documentChunks| then topK else |documentChunks|)
      && (exists order :: IsStableDescendingOrder(Similarities(scored), order) &&
            forall i :: 0 <= i < |r| ==> r[i] == scored[order[i]])
      && (forall i :: 0 <= i < |r| ==>
            (r[i].chunk in documentChunks && r[i].similarity == similarity(q, r[i].chunk.embedding)))
      && (forall i, j :: 0 <= i < j < |r| ==> r[i].similarity >= r[j].similarity)
  {
    var q := embed(query).value;
    var scored := ScoreAll(documentChunks, q, similarity);
    var keys := Similarities(scored);
    var order := Rank(keys, |scored|);
    RankIsStableDescending(keys, |scored|);
    var r := FindRelevantChunks(documentChunks, query, topK, embed, similarity).results;
    var sorted := SortBySimilarity(scored);
    forall i | 0 <= i < |r| ensures r[i] == scored[order[i]] {
      assert r[i] == sorted[i];
    }
    forall i, j | 0 <= i < j < |r| ensures r[i].similarity >= r[j].similarity {
      assert RankedBefore(keys, order[i], order[j]);
    }
  }

  /** When the stored chunks are in increasing chunk position, as ingestion
      leaves them, chunks with equal scores come out in chunk-position order. */
  lemma TiesKeepChunkOrder(documentChunks: seq<EmbeddedChunk>, query: string, topK: nat,
                           embed: string -> Option<Embedding>,
                           similarity: (Embedding, Embedding) -> real)
    requires forall i, j :: 0 <= i < j < |documentChunks| ==> documentChunks[i].index < documentChunks[j].index
    ensures var r := FindRelevantChunks(documentChunks, query, topK, embed, similarity).results;
      forall i, j :: 0 <= i < j < |r| && r[i].similarity == r[j].similarity ==>
        r[i].chunk.index < r[j].chunk.index
  {
    if documentChunks != [] && embed(query).Some? {
      var q := embed(query).value;
      var scored := ScoreAll(documentChunks, q, similarity);
      var keys := Similarities(scored);
      var order := Rank(keys, |scored|);
      RankIsStableDescending(keys, |scored|);
      var r := FindRelevantChunks(documentChunks, query, topK, embed, similarity).results;
      var sorted := SortBySimilarity(scored);
      forall i, j | 0 <= i < j < |r| && r[i].similarity == r[j].similarity
        ensures r[i].chunk.index < r[j].chunk.index
      {
        assert r[i] == sorted[i] == scored[order[i]];
        assert r[j] == sorted[j] == scored[order[j]];
        assert RankedBefore(keys, order[i], order[j]);
      }
    }
  }

  /** Across ingestion and retrieval: for the chunks `processDocument` stored,
      equal scores come out in chunk-position order. */
  lemma IngestedTiesKeepChunkOrder(content: string, query: string, topK: nat,
                                   embed: string -> Option<Embedding>,
                                   similarity: (Embedding, Embedding) -> real)
    ensures var r := FindRelevantChunks(Ingested(content, embed), query, topK, embed, similarity).results;
      forall i, j :: 0 <= i < j < |r| && r[i].similarity == r[j].similarity ==>
        r[i].chunk.index < r[j].chunk.index
  {
    IngestedInChunkOrder(content, embed);
    TiesKeepChunkOrder(Ingested(content, embed), query, topK, embed, similarity);
  }
}
