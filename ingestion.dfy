/** The ingestion step of `processDocument` (app/index.tsx): the extracted
    text is chunked with a target of 800 characters, the first ten chunks are
    sent to the embedding provider one after the other, and the chunks whose
    embedding came back are kept, with their position, as the searchable
    chunks of the chat screen. The provider is the oracle `embed`, which
    stands for `getEmbedding`: `None` is the `null` it returns on any failure. */
module Ingestion {
  import opened Types
  import Chunker

  /** At most this many chunks are embedded per document. */
  const MaxEmbeddedChunks := 10

  /** The `maxChunkSize` that `processDocument` passes to `chunkText`. */
  const IngestChunkSize := 800

  /** An entry of the screen's `documentChunks`: chunk text, its embedding and
      its position in the chunk list. */
  datatype EmbeddedChunk = EmbeddedChunk(text: string, embedding: Embedding, index: nat)

  /** `Math.min(chunks.length, 10)`. */
  function EmbedLimit(chunks: seq<string>): (n: nat)
    ensures n <= |chunks| && n <= MaxEmbeddedChunks
    ensures n == |chunks| || n == MaxEmbeddedChunks
  {
    if |chunks| < MaxEmbeddedChunks then |chunks| else MaxEmbeddedChunks
  }

  /** The entries the loop has kept after looking at the first `n` chunks. */
  function Kept(chunks: seq<string>, embed: string -> Option<Embedding>, n: nat): seq<EmbeddedChunk>
    requires n <= |chunks|
    decreases n
  {
    if n == 0 then []
    else
      var kept := Kept(chunks, embed, n - 1);
      match embed(chunks[n - 1])
      case Some(e) => kept + [EmbeddedChunk(chunks[n - 1], e, n - 1)]
      case None => kept
  }

  /** The number of the first `n` chunks whose embedding came back. */
  function CountEmbedded(chunks: seq<string>, embed: string -> Option<Embedding>, n: nat): nat
    requires n <= |chunks|
    decreases n
  {
    if n == 0 then 0
    else CountEmbedded(chunks, embed, n - 1) + (if embed(chunks[n - 1]).Some? then 1 else 0)
  }

  /** One more chunk looked at: its entry is appended when its embedding came back. */
  lemma KeptStep(chunks: seq<string>, embed: string -> Option<Embedding>, n: nat)
    requires 0 < n <= |chunks|
    ensures var before := Kept(chunks, embed, n - 1);
      Kept(chunks, embed, n) ==
        if embed(chunks[n - 1]).Some?
        then before + [EmbeddedChunk(chunks[n - 1], embed(chunks[n - 1]).value, n - 1)]
        else before
  {
  }

  /** One entry per chunk whose embedding came back. */
  lemma {:induction false} KeptCount(chunks: seq<string>, embed: string -> Option<Embedding>, n: nat)
    requires n <= |chunks|
    ensures |Kept(chunks, embed, n)| == CountEmbedded(chunks, embed, n)
    decreases n
  {
    if n > 0 {
      KeptCount(chunks, embed, n - 1);
    }
  }

  /** Every kept entry is a chunk among the first `n`, stored with its own
      position and the embedding the provider returned for it. */
  lemma {:induction false} KeptEntries(chunks: seq<string>, embed: string -> Option<Embedding>, n: nat)
    requires n <= |chunks|
    ensures var kept := Kept(chunks, embed, n);
      forall j :: 0 <= j < |kept| ==>
        kept[j].index < n && kept[j].text == chunks[kept[j].index] &&
        embed(chunks[kept[j].index]) == Some(kept[j].embedding)
    decreases n
  {
    if n > 0 {
      KeptEntries(chunks, embed, n - 1);
      var before := Kept(chunks, embed, n - 1);
      var kept := Kept(chunks, embed, n);
      KeptStep(chunks, embed, n);
      forall j | 0 <= j < |kept|
        ensures kept[j].index < n && kept[j].text == chunks[kept[j].index] &&
                embed(chunks[kept[j].index]) == Some(kept[j].embedding)
      {
        if j < |before| {
          assert kept[j] == before[j];
        } else {
          assert kept[j] == EmbeddedChunk(chunks[n - 1], embed(chunks[n - 1]).value, n - 1);
        }
      }
    }
  }

  /** The positions of the kept entries strictly increase. */
  lemma {:induction false} KeptIncreasing(chunks: seq<string>, embed: string -> Option<Embedding>, n: nat)
    requires n <= |chunks|
    ensures var kept := Kept(chunks, embed, n);
      forall j, l :: 0 <= j < l < |kept| ==> kept[j].index < kept[l].index
    decreases n
  {
    if n > 0 {
      KeptIncreasing(chunks, embed, n - 1);
      KeptEntries(chunks, embed, n - 1);
      var before := Kept(chunks, embed, n - 1);
      var kept := Kept(chunks, embed, n);
      KeptStep(chunks, embed, n);
      forall j, l | 0 <= j < l < |kept| ensures kept[j].index < kept[l].index {
        assert kept[j] == before[j];
        if l < |before| {
          assert kept[l] == before[l];
        } else {
          assert kept[l].index == n - 1;
        }
      }
    }
  }

  /** A position among the first `n` is kept exactly when its embedding came back. */
  lemma {:induction false} KeptComplete(chunks: seq<string>, embed: string -> Option<Embedding>, n: nat)
    requires n <= |chunks|
    ensures var kept := Kept(chunks, embed, n);
      forall i :: 0 <= i < n ==>
        (embed(chunks[i]).Some? <==> exists j :: 0 <= j < |kept| && kept[j].index == i)
    decreases n
  {
    if n > 0 {
      KeptComplete(chunks, embed, n - 1);
      KeptEntries(chunks, embed, n - 1);
      var before := Kept(chunks, embed, n - 1);
      var kept := Kept(chunks, embed, n);
      KeptStep(chunks, embed, n);
      forall i | 0 <= i < n
        ensures embed(chunks[i]).Some? <==> exists j :: 0 <= j < |kept| && kept[j].index == i
      {
        if i < n - 1 {
          if exists j :: 0 <= j < |kept| && kept[j].index == i {
            var j :| 0 <= j < |kept| && kept[j].index == i;
            assert kept[j] == before[j];
          }
          if embed(chunks[i]).Some? {
            var j :| 0 <= j < |before| && before[j].index == i;
            assert kept[j] == before[j];
          }
        } else if embed(chunks[i]).Some? {
          assert kept[|before|].index == i;
        }
      }
    }
  }

  /** The loop's promises together: one entry per embedded chunk, each a
      chunk among the first `n` with its own position and embedding, in
      strictly increasing position, and a position kept exactly when its
      embedding came back. */
  lemma KeptFaithful(chunks: seq<string>, embed: string -> Option<Embedding>, n: nat)
    requires n <= |chunks|
    ensures var kept := Kept(chunks, embed, n);
      && |kept| == CountEmbedded(chunks, embed, n)
      && (forall j :: 0 <= j < |kept| ==>
            kept[j].index < n && kept[j].text == chunks[kept[j].index] &&
            embed(chunks[kept[j].index]) == Some(kept[j].embedding))
      && (forall j, l :: 0 <= j < l < |kept| ==> kept[j].index < kept[l].index)
      && (forall i :: 0 <= i < n ==>
            (embed(chunks[i]).Some? <==> exists j :: 0 <= j < |kept| && kept[j].index == i))
  {
    KeptCount(chunks, embed, n);
    KeptEntries(chunks, embed, n);
    KeptIncreasing(chunks, embed, n);
    KeptComplete(chunks, embed, n);
  }

  /** The number of entries is at most the number of chunks looked at. */
  lemma {:induction false} CountEmbeddedBound(chunks: seq<string>, embed: string -> Option<Embedding>, n: nat)
    requires n <= |chunks|
    ensures CountEmbedded(chunks, embed, n) <= n
    decreases n
  {
    if n > 0 {
      CountEmbeddedBound(chunks, embed, n - 1);
    }
  }

  /** The loop of `processDocument` over `Math.min(chunks.length, 10)` chunks.
      Besides the kept entries it returns the texts sent to the provider: each
      of the first chunks once, in order, whether or not its embedding came
      back. */
  method EmbedChunks(chunks: seq<string>, embed: string -> Option<Embedding>)
    returns (kept: seq<EmbeddedChunk>, sent: seq<string>)
    ensures kept == Kept(chunks, embed, EmbedLimit(chunks))
    ensures sent == chunks[..EmbedLimit(chunks)]
  {
    kept, sent := [], [];
    var limit := if |chunks| < MaxEmbeddedChunks then |chunks| else MaxEmbeddedChunks;
    for i := 0 to limit
      invariant kept == Kept(chunks, embed, i)
      invariant sent == chunks[..i]
    {
      sent := sent + [chunks[i]];
      assert sent == chunks[..i + 1];
      var embedding := embed(chunks[i]);
      if embedding.Some? {
        kept := kept + [EmbeddedChunk(chunks[i], embedding.value, i)];
      }
    }
  }

  /** The texts `processDocument` sends to the embedding provider. */
  function EmbeddingRequests(content: string): (sent: seq<string>)
    ensures |sent| <= MaxEmbeddedChunks
  {
    var chunks := Chunker.ChunkSpec(content, IngestChunkSize);
    chunks[..EmbedLimit(chunks)]
  }

  /** The chunks `processDocument` stores for the extracted `content`. */
  function Ingested(content: string, embed: string -> Option<Embedding>): seq<EmbeddedChunk> {
    var chunks := Chunker.ChunkSpec(content, IngestChunkSize);
    Kept(chunks, embed, EmbedLimit(chunks))
  }

  /** Chunk positions below the embedding limit, strictly increasing. */
  predicate InChunkOrder(kept: seq<EmbeddedChunk>) {
    && (forall i :: 0 <= i < |kept| ==> kept[i].index < MaxEmbeddedChunks)
    && (forall i, j :: 0 <= i < j < |kept| ==> kept[i].index < kept[j].index)
  }

  /** The loop's entries are in chunk order, below the embedding limit. */
  lemma KeptInChunkOrder(chunks: seq<string>, embed: string -> Option<Embedding>)
    ensures InChunkOrder(Kept(chunks, embed, EmbedLimit(chunks)))
  {
    KeptEntries(chunks, embed, EmbedLimit(chunks));
    KeptIncreasing(chunks, embed, EmbedLimit(chunks));
  }

  /** The stored chunks are in chunk order, below the embedding limit. */
  lemma IngestedInChunkOrder(content: string, embed: string -> Option<Embedding>)
    ensures InChunkOrder(Ingested(content, embed))
  {
    KeptInChunkOrder(Chunker.ChunkSpec(content, IngestChunkSize), embed);
  }

  /** Every stored chunk is one of the texts sent for embedding, stored with
      the embedding returned for it, and a text sent is stored exactly when
      its embedding came back. */
  lemma IngestedWereSent(content: string, embed: string -> Option<Embedding>)
    ensures var kept := Ingested(content, embed);
      var sent := EmbeddingRequests(content);
      && (forall j :: 0 <= j < |kept| ==>
            kept[j].index < |sent| && kept[j].text == sent[kept[j].index] &&
            embed(sent[kept[j].index]) == Some(kept[j].embedding))
      && (forall i :: 0 <= i < |sent| ==>
            (embed(sent[i]).Some? <==> exists j :: 0 <= j < |kept| && kept[j].index == i))
  {
    var chunks := Chunker.ChunkSpec(content, IngestChunkSize);
    var n := EmbedLimit(chunks);
    KeptEntries(chunks, embed, n);
    KeptComplete(chunks, embed, n);
    assert forall i :: 0 <= i < n ==> EmbeddingRequests(content)[i] == chunks[i];
  }

  /** What `processDocument` computes from the extracted `content`: the new
      searchable chunks, in chunk order, and the count it reports. */
  method Ingest(content: string, embed: string -> Option<Embedding>)
    returns (kept: seq<EmbeddedChunk>, count: nat, sent: seq<string>)
    ensures kept == Ingested(content, embed)
    ensures sent == EmbeddingRequests(content)
    ensures InChunkOrder(kept)
    ensures count == |kept| && count <= MaxEmbeddedChunks
  {
    var chunks := Chunker.ChunkText(content, IngestChunkSize);
    kept, sent := EmbedChunks(chunks, embed);
    count := |kept|;
    KeptInChunkOrder(chunks, embed);
    CountEmbeddedBound(chunks, embed, EmbedLimit(chunks));
    KeptCount(chunks, embed, EmbedLimit(chunks));
  }
}
