/** The sentence-aware chunker of the chat screen (`chunkText` in
    app/index.tsx): the text is cut at runs of `.`, `!` and `?`, blank pieces
    are dropped, and the remaining sentences are packed greedily into chunks,
    joined by ". " and trimmed. */
module Chunker {
  import opened Text

  predicate IsSentenceBreak(c: char) {
    c == '.' || c == '!' || c == '?'
  }

  /** `s` holds no sentence-break character. */
  predicate BreakFree(s: string) {
    forall j :: 0 <= j < |s| ==> !IsSentenceBreak(s[j])
  }

  /** `s` without any sentence-break characters. */
  function StripBreaks(s: string): string
    decreases |s|
  {
    if s == [] then ""
    else (if IsSentenceBreak(s[0]) then "" else [s[0]]) + StripBreaks(s[1..])
  }

  lemma {:induction false} StripBreaksAppend(a: string, b: string)
    ensures StripBreaks(a + b) == StripBreaks(a) + StripBreaks(b)
    decreases |a|
  {
    if a != [] {
      assert (a + b)[1..] == a[1..] + b;
      StripBreaksAppend(a[1..], b);
      var h := if IsSentenceBreak(a[0]) then "" else [a[0]];
      calc {
        StripBreaks(a + b);
        h + StripBreaks(a[1..] + b);
        h + (StripBreaks(a[1..]) + StripBreaks(b));
        (h + StripBreaks(a[1..])) + StripBreaks(b);
      }
    } else {
      assert a + b == b;
    }
  }

  lemma {:induction false} StripBreaksNone(s: string)
    requires BreakFree(s)
    ensures StripBreaks(s) == s
    decreases |s|
  {
    if s != [] {
      StripBreaksNone(s[1..]);
    }
  }

  /** The position of the first sentence break in `s`, or `|s|`. */
  function BreakIndex(s: string): (k: nat)
    ensures k <= |s|
    ensures k < |s| ==> IsSentenceBreak(s[k])
    ensures BreakFree(s[..k])
    decreases |s|
  {
    if s == [] || IsSentenceBreak(s[0]) then 0
    else
      var k := 1 + BreakIndex(s[1..]);
      assert s[..k] == [s[0]] + s[1..][..k - 1];
      k
  }

  /** `s` without its leading run of sentence breaks. */
  function DropBreakRun(s: string): (r: string)
    ensures |r| <= |s|
    ensures s != [] && IsSentenceBreak(s[0]) ==> |r| < |s|
    ensures r == [] || !IsSentenceBreak(r[0])
    decreases |s|
  {
    if s != [] && IsSentenceBreak(s[0]) then DropBreakRun(s[1..]) else s
  }

  /** Dropping a run of breaks does not change the text without breaks. */
  lemma {:induction false} DropBreakRunStrip(s: string)
    ensures StripBreaks(DropBreakRun(s)) == StripBreaks(s)
    decreases |s|
  {
    if s != [] && IsSentenceBreak(s[0]) {
      DropBreakRunStrip(s[1..]);
    }
  }

  /** `text.split(/[.!?]+/)`: the pieces between maximal runs of breaks,
      including the empty piece before a leading run and after a trailing
      one, and `[""]` for the empty text. */
  function SplitSentences(text: string): (pieces: seq<string>)
    ensures |pieces| >= 1
    ensures forall i :: 0 <= i < |pieces| ==> BreakFree(pieces[i])
    decreases |text|
  {
    var k := BreakIndex(text);
    if k == |text| then
      assert text[..k] == text;
      [text]
    else
      var tail := SplitSentences(DropBreakRun(text[k..]));
      [text[..k]] + tail
  }

  /** Removing breaks from a break-free piece followed by the rest. */
  lemma StripAfterPiece(a: string, b: string)
    requires BreakFree(a)
    ensures StripBreaks(a + b) == a + StripBreaks(DropBreakRun(b))
  {
    StripBreaksAppend(a, b);
    StripBreaksNone(a);
    DropBreakRunStrip(b);
  }

  /** Removing breaks from a text whose first break is at `k`. */
  lemma StripAtBreak(text: string)
    requires BreakIndex(text) < |text|
    ensures var k := BreakIndex(text);
      StripBreaks(text) == text[..k] + StripBreaks(DropBreakRun(text[k..]))
  {
    var k := BreakIndex(text);
    var a, b := text[..k], text[k..];
    calc {
      StripBreaks(text);
      { assert text == a + b; }
      StripBreaks(a + b);
      { StripAfterPiece(a, b); }
      a + StripBreaks(DropBreakRun(b));
    }
  }

  /** Splitting a text whose first break is at `k`. */
  lemma SplitAtBreak(text: string)
    requires BreakIndex(text) < |text|
    ensures var k := BreakIndex(text);
      Concat(SplitSentences(text)) == text[..k] + Concat(SplitSentences(DropBreakRun(text[k..])))
  {
    var k := BreakIndex(text);
    var pieces := SplitSentences(text);
    var tail := SplitSentences(DropBreakRun(text[k..]));
    assert pieces == [text[..k]] + tail;
    assert pieces[1..] == tail;
  }

  /** The pieces, put back together, are the text without its breaks: no
      character other than a break is lost, reordered or duplicated. */
  lemma {:induction false} SplitSentencesConcat(text: string)
    ensures Concat(SplitSentences(text)) == StripBreaks(text)
    decreases |text|
  {
    var k := BreakIndex(text);
    if k == |text| {
      assert text[..k] == text;
      StripBreaksNone(text);
    } else {
      SplitSentencesConcat(DropBreakRun(text[k..]));
      SplitAtBreak(text);
      StripAtBreak(text);
    }
  }

  /** `s` is one run of the separator `/[.!?]+/`: non-empty, breaks only. */
  predicate IsBreakRun(s: string) {
    s != [] && forall j :: 0 <= j < |s| ==> IsSentenceBreak(s[j])
  }

  /** The run of breaks that `s` starts with (empty when it starts with none). */
  function LeadingRun(s: string): string
    decreases |s|
  {
    if s != [] && IsSentenceBreak(s[0]) then [s[0]] + LeadingRun(s[1..]) else ""
  }

  /** `s` is its leading run followed by the rest, and the leading run of a
      text that starts with a break holds breaks only. */
  lemma {:induction false} LeadingRunShape(s: string)
    ensures var n := |LeadingRun(s)|;
      && n + |DropBreakRun(s)| == |s|
      && LeadingRun(s) == s[..n] && DropBreakRun(s) == s[n..]
      && (s != [] && IsSentenceBreak(s[0]) ==> IsBreakRun(LeadingRun(s)))
    decreases |s|
  {
    if s != [] && IsSentenceBreak(s[0]) {
      LeadingRunShape(s[1..]);
      var run := LeadingRun(s);
      forall j | 0 <= j < |run| ensures IsSentenceBreak(run[j]) {
        if j > 0 {
          assert run[j] == LeadingRun(s[1..])[j - 1];
        }
      }
    }
  }

  /** The separator runs `text.split(/[.!?]+/)` cuts at, left to right. */
  function BreakRuns(text: string): seq<string>
    decreases |text|
  {
    var k := BreakIndex(text);
    if k == |text| then []
    else
      [LeadingRun(text[k..])] + BreakRuns(DropBreakRun(text[k..]))
  }

  /** The pieces with the separator runs put back between them. */
  function Interleave(pieces: seq<string>, runs: seq<string>): string
    requires |pieces| == |runs| + 1
    decreases |runs|
  {
    if runs == [] then pieces[0]
    else pieces[0] + runs[0] + Interleave(pieces[1..], runs[1..])
  }

  /** The first cut of a text that holds a break at `k`: the piece before
      it, the maximal run of breaks from `k` to `m`, and the rest after `m`. */
  lemma CutAtBreak(text: string)
    requires BreakIndex(text) < |text|
    ensures var k := BreakIndex(text);
      var rest := DropBreakRun(text[k..]);
      var run := LeadingRun(text[k..]);
      var m := k + |run|;
      && k < m <= |text|
      && run == text[k..m] && rest == text[m..]
      && SplitSentences(text) == [text[..k]] + SplitSentences(rest)
      && BreakRuns(text) == [run] + BreakRuns(rest)
      && IsBreakRun(run)
  {
    var k := BreakIndex(text);
    LeadingRunShape(text[k..]);
  }

  /** Putting a piece and a run in front of an interleaving of the rest. */
  lemma InterleaveCons(text: string, k: nat, m: nat, pieces: seq<string>, runs: seq<string>)
    requires k <= m <= |text| && |pieces| == |runs| + 1
    requires Interleave(pieces, runs) == text[m..]
    ensures Interleave([text[..k]] + pieces, [text[k..m]] + runs) == text
  {
    assert ([text[..k]] + pieces)[1..] == pieces && ([text[k..m]] + runs)[1..] == runs;
    assert text == text[..k] + text[k..m] + text[m..];
  }

  /** One separator run lies between each pair of consecutive pieces. */
  lemma {:induction false} BreakRunsBetweenPieces(text: string)
    ensures |BreakRuns(text)| == |SplitSentences(text)| - 1
    ensures forall i :: 0 <= i < |BreakRuns(text)| ==> IsBreakRun(BreakRuns(text)[i])
    decreases |text|
  {
    if BreakIndex(text) < |text| {
      CutAtBreak(text);
      BreakRunsBetweenPieces(DropBreakRun(text[BreakIndex(text)..]));
    }
  }

  /** Putting the runs back between the pieces gives the text. */
  lemma {:induction false} InterleaveRestoresText(text: string)
    ensures |BreakRuns(text)| == |SplitSentences(text)| - 1
    ensures Interleave(SplitSentences(text), BreakRuns(text)) == text
    decreases |text|
  {
    BreakRunsBetweenPieces(text);
    var k := BreakIndex(text);
    if k == |text| {
      assert text[..k] == text;
    } else {
      CutAtBreak(text);
      var rest := DropBreakRun(text[k..]);
      InterleaveRestoresText(rest);
      InterleaveCons(text, k, k + |LeadingRun(text[k..])|, SplitSentences(rest), BreakRuns(rest));
    }
  }

  /** The runs are maximal: no piece strictly between two runs is empty, and
      the first piece is empty only when the text starts with a break. */
  lemma {:induction false} InnerPiecesNonEmpty(text: string)
    ensures var pieces := SplitSentences(text);
      && (forall i :: 0 < i < |pieces| - 1 ==> pieces[i] != [])
      && (|pieces| > 1 && !IsSentenceBreak(text[0]) ==> pieces[0] != [])
    decreases |text|
  {
    var k := BreakIndex(text);
    if k < |text| {
      CutAtBreak(text);
      var rest := DropBreakRun(text[k..]);
      InnerPiecesNonEmpty(rest);
      var pieces := SplitSentences(text);
      var tail := SplitSentences(rest);
      assert pieces[1..] == tail;
      if |tail| > 1 {
        assert rest != [] && BreakIndex(rest) < |rest|;
        CutAtBreak(rest);
      }
      forall i | 0 < i < |pieces| - 1 ensures pieces[i] != [] {
        assert pieces[i] == tail[i - 1];
      }
    }
  }

  /** The split round trip: between consecutive pieces lies one maximal run
      of breaks, and putting the runs back gives the text. */
  lemma SplitSentencesRoundTrip(text: string)
    ensures var pieces := SplitSentences(text);
      var runs := BreakRuns(text);
      && |runs| == |pieces| - 1
      && (forall i :: 0 <= i < |runs| ==> IsBreakRun(runs[i]))
      && Interleave(pieces, runs) == text
      && (forall i :: 0 < i < |pieces| - 1 ==> pieces[i] != [])
      && (|pieces| > 1 && !IsSentenceBreak(text[0]) ==> pieces[0] != [])
  {
    BreakRunsBetweenPieces(text);
    InterleaveRestoresText(text);
    InnerPiecesNonEmpty(text);
  }

  /** `.filter((s) => s.trim())`: the pieces whose trimmed form is not empty. */
  function NonBlank(pieces: seq<string>): (r: seq<string>)
    ensures forall i :: 0 <= i < |r| ==> !Blank(r[i]) && r[i] in pieces
    decreases |pieces|
  {
    if pieces == [] then []
    else
      TrimShape(pieces[0]);
      (if Trim(pieces[0]) != "" then [pieces[0]] else []) + NonBlank(pieces[1..])
  }

  /** One piece survives the filter exactly when it is not blank. */
  lemma NonBlankSingle(p: string)
    ensures NonBlank([p]) == (if Blank(p) then [] else [p])
  {
    TrimShape(p);
    assert [p][1..] == [];
  }

  /** The filter works piece by piece: it keeps the order and drops nothing
      that is not blank. */
  lemma {:induction false} NonBlankAppend(a: seq<string>, b: seq<string>)
    ensures NonBlank(a + b) == NonBlank(a) + NonBlank(b)
    decreases |a|
  {
    if a == [] {
      assert a + b == b;
    } else {
      assert (a + b)[0] == a[0] && (a + b)[1..] == a[1..] + b;
      NonBlankAppend(a[1..], b);
    }
  }

  /** Every non-blank piece survives the filter. */
  lemma {:induction false} NonBlankComplete(pieces: seq<string>)
    ensures forall p :: p in pieces && !Blank(p) ==> p in NonBlank(pieces)
    decreases |pieces|
  {
    if pieces != [] {
      NonBlankComplete(pieces[1..]);
      TrimShape(pieces[0]);
      forall p | p in pieces && !Blank(p) ensures p in NonBlank(pieces) {
        if p != pieces[0] {
          assert p in pieces[1..];
        }
      }
    }
  }

  /** The sentences that `chunkText` packs. */
  function Sentences(text: string): seq<string> {
    NonBlank(SplitSentences(text))
  }

  /** Sentences are never empty. */
  lemma SentencesNonEmpty(text: string)
    ensures forall i :: 0 <= i < |Sentences(text)| ==> Sentences(text)[i] != []
  {
    forall i | 0 <= i < |Sentences(text)| ensures Sentences(text)[i] != [] {
      assert !Blank(Sentences(text)[i]);
    }
  }

  /** All elements of `xss`, in order. */
  function Flatten<T>(xss: seq<seq<T>>): seq<T>
    decreases |xss|
  {
    if xss == [] then [] else Flatten(xss[..|xss| - 1]) + xss[|xss| - 1]
  }

  lemma FlattenSnoc<T>(xss: seq<seq<T>>, xs: seq<T>)
    ensures Flatten(xss + [xs]) == Flatten(xss) + xs
  {
    assert (xss + [xs])[..|xss|] == xss;
  }

  /** A flattening of non-empty groups has at least as many elements as groups. */
  lemma {:induction false} FlattenLength<T>(xss: seq<seq<T>>)
    requires forall k :: 0 <= k < |xss| ==> xss[k] != []
    ensures |Flatten(xss)| >= |xss|
    decreases |xss|
  {
    if xss != [] {
      FlattenLength(xss[..|xss| - 1]);
    }
  }

  /** Sentence `s` may join a chunk holding `group`: the group's text plus
      the sentence, the joiner not counted, is at most `max` long. */
  predicate Fits(group: seq<string>, s: string, max: int) {
    |Join(group, ". ")| + |s| <= max
  }

  /** The greedy packing of `sents` into groups, one sentence at a time: the
      first sentence opens a group; a later one joins the last group when it
      fits and opens a new group otherwise. */
  function Pack(sents: seq<string>, max: int): seq<seq<string>>
    decreases |sents|
  {
    if sents == [] then []
    else
      var groups := Pack(sents[..|sents| - 1], max);
      var s := sents[|sents| - 1];
      if groups == [] then [[s]]
      else if !Fits(groups[|groups| - 1], s, max) then groups + [[s]]
      else groups[..|groups| - 1] + [groups[|groups| - 1] + [s]]
  }

  /** The text of one chunk: its sentences joined by ". ", trimmed. */
  function ChunkOf(group: seq<string>): string {
    Trim(Join(group, ". "))
  }

  function ChunksOf(groups: seq<seq<string>>): (r: seq<string>)
    ensures |r| == |groups|
    ensures forall k :: 0 <= k < |groups| ==> r[k] == ChunkOf(groups[k])
  {
    seq(|groups|, k requires 0 <= k < |groups| => ChunkOf(groups[k]))
  }

  lemma ChunksOfSnoc(groups: seq<seq<string>>, g: seq<string>)
    ensures ChunksOf(groups + [g]) == ChunksOf(groups) + [ChunkOf(g)]
  {
  }

  /** What `chunkText(text, max)` returns. */
  function ChunkSpec(text: string, max: int): seq<string> {
    ChunksOf(Pack(Sentences(text), max))
  }

  /** Every sentence after the first of `g` fitted when it was added. */
  ghost predicate GroupFits(g: seq<string>, max: int) {
    forall j :: 1 <= j < |g| ==> Fits(g[..j], g[j], max)
  }

  /** The reference definition of greedy packing: the groups are non-empty and
      hold exactly `sents` in order; every sentence that joined a group fitted;
      and every group after the first was opened because its first sentence
      did not fit into the group before it. */
  ghost predicate IsGreedyPacking(sents: seq<string>, groups: seq<seq<string>>, max: int) {
    && Flatten(groups) == sents
    && (forall k :: 0 <= k < |groups| ==> groups[k] != [] && GroupFits(groups[k], max))
    && (forall k :: 0 <= k < |groups| - 1 ==> !Fits(groups[k], groups[k + 1][0], max))
  }

  /** Opening a new group for a sentence that does not fit keeps the packing greedy. */
  lemma OpenGroupStep(sents: seq<string>, groups: seq<seq<string>>, s: string, max: int)
    requires IsGreedyPacking(sents, groups, max) && groups != []
    requires !Fits(groups[|groups| - 1], s, max)
    ensures IsGreedyPacking(sents + [s], groups + [[s]], max)
  {
    var r := groups + [[s]];
    FlattenSnoc(groups, [s]);
    assert GroupFits([s], max);
    forall k | 0 <= k < |r| - 1
      ensures !Fits(r[k], r[k + 1][0], max)
    {
      if k < |groups| - 1 {
        assert r[k] == groups[k] && r[k + 1] == groups[k + 1];
      }
    }
  }

  /** Adding a sentence that fits to the last group keeps the packing greedy. */
  lemma GrowGroupStep(sents: seq<string>, groups: seq<seq<string>>, s: string, max: int)
    requires IsGreedyPacking(sents, groups, max) && groups != []
    requires Fits(groups[|groups| - 1], s, max)
    ensures IsGreedyPacking(sents + [s], groups[..|groups| - 1] + [groups[|groups| - 1] + [s]], max)
  {
    var m := |groups|;
    var last := groups[m - 1];
    var grown := last + [s];
    var r := groups[..m - 1] + [grown];
    assert groups == groups[..m - 1] + [last];
    FlattenSnoc(groups[..m - 1], last);
    FlattenSnoc(groups[..m - 1], grown);
    assert GroupFits(last, max);
    forall j | 1 <= j < |grown|
      ensures Fits(grown[..j], grown[j], max)
    {
      if j < |last| {
        assert grown[..j] == last[..j] && grown[j] == last[j];
      } else {
        assert grown[..j] == last && grown[j] == s;
      }
    }
    forall k | 0 <= k < |r|
      ensures r[k] != [] && GroupFits(r[k], max)
    {
      if k < m - 1 {
        assert r[k] == groups[k];
      }
    }
    forall k | 0 <= k < |r| - 1
      ensures !Fits(r[k], r[k + 1][0], max)
    {
      assert r[k] == groups[k];
      if k + 1 < m - 1 {
        assert r[k + 1] == groups[k + 1];
      } else {
        assert r[k + 1] == grown && grown[0] == last[0];
      }
    }
  }

  /** The first sentence opens the first group. */
  lemma FirstGroupStep(sents: seq<string>, s: string, max: int)
    requires IsGreedyPacking(sents, [], max)
    ensures IsGreedyPacking(sents + [s], [[s]], max)
  {
    assert sents == [];
    FlattenSnoc([], [s]);
    assert GroupFits([s], max);
  }

  /** `Pack` is a greedy packing. */
  lemma {:induction false} PackIsGreedy(sents: seq<string>, max: int)
    ensures IsGreedyPacking(sents, Pack(sents, max), max)
    decreases |sents|
  {
    if sents != [] {
      var init := sents[..|sents| - 1];
      var s := sents[|sents| - 1];
      PackIsGreedy(init, max);
      var groups := Pack(init, max);
      assert sents == init + [s];
      if groups == [] {
        FirstGroupStep(init, s, max);
      } else if !Fits(groups[|groups| - 1], s, max) {
        OpenGroupStep(init, groups, s, max);
      } else {
        GrowGroupStep(init, groups, s, max);
      }
    }
  }

  /** The first sentence of each group is one of the packed sentences. */
  lemma {:induction false} GroupHeadsAreSentences(groups: seq<seq<string>>, k: nat)
    requires k < |groups| && groups[k] != []
    ensures groups[k][0] in Flatten(groups)
    decreases |groups|
  {
    var m := |groups|;
    if k < m - 1 {
      GroupHeadsAreSentences(groups[..m - 1], k);
    }
  }

  /** Every sentence lands in exactly one chunk, in order, and there are at
      most as many chunks as sentences (at least one when there is a
      sentence). */
  lemma ChunksPartitionSentences(text: string, max: int)
    ensures Flatten(Pack(Sentences(text), max)) == Sentences(text)
    ensures forall k :: 0 <= k < |ChunkSpec(text, max)| ==>
              ChunkSpec(text, max)[k] == ChunkOf(Pack(Sentences(text), max)[k])
    ensures |ChunkSpec(text, max)| <= |Sentences(text)|
    ensures Sentences(text) != [] ==> ChunkSpec(text, max) != []
  {
    var groups := Pack(Sentences(text), max);
    PackIsGreedy(Sentences(text), max);
    FlattenLength(groups);
  }

  /** A chunk made of two or more sentences is at most `max + 2` long: the
      check counts the buffer plus the sentence but not the ". " between. */
  lemma MultiSentenceChunkBound(sents: seq<string>, groups: seq<seq<string>>, max: int, k: nat)
    requires IsGreedyPacking(sents, groups, max)
    requires k < |groups| && |groups[k]| >= 2
    ensures |Join(groups[k], ". ")| <= max + 2
    ensures |ChunkOf(groups[k])| <= max + 2
  {
    var g := groups[k];
    var j := |g| - 1;
    assert GroupFits(g, max);
    assert Fits(g[..j], g[j], max);
    assert g == g[..j] + [g[j]];
    JoinSnoc(g[..j], g[j], ". ");
    TrimShape(Join(g, ". "));
  }

  /** What fitting says about single sentences: every sentence after the
      first is at most `max` long, and so are the first two together. */
  lemma GroupFitsBounds(g: seq<string>, max: int)
    requires GroupFits(g, max)
    ensures forall i :: 1 <= i < |g| ==> |g[i]| <= max
    ensures |g| >= 2 ==> |g[0]| + |g[1]| <= max
  {
    if |g| >= 2 {
      assert g[..1] == [g[0]];
      assert Fits(g[..1], g[1], max);
    }
  }

  /** A sentence longer than `max` is a chunk on its own, untruncated. */
  lemma LongSentenceAlone(sents: seq<string>, groups: seq<seq<string>>, max: int, k: nat, j: nat)
    requires IsGreedyPacking(sents, groups, max)
    requires k < |groups| && j < |groups[k]| && |groups[k][j]| > max
    ensures groups[k] == [groups[k][j]]
    ensures ChunkOf(groups[k]) == Trim(groups[k][j])
  {
    GroupFitsBounds(groups[k], max);
  }

  /** A group holding a non-blank first sentence joins to a non-blank text. */
  lemma JoinNotBlank(group: seq<string>)
    requires group != [] && !Blank(group[0])
    ensures !Blank(Join(group, ". "))
  {
    var i :| 0 <= i < |group[0]| && !IsWhitespace(group[0][i]);
    var j := Join(group, ". ");
    if |group| > 1 {
      assert j == group[0] + (". " + Join(group[1..], ". "));
    }
    assert j[i] == group[0][i];
  }

  /** Every chunk is non-empty and neither starts nor ends with whitespace. */
  lemma ChunksTrimmed(text: string, max: int, k: nat)
    requires k < |ChunkSpec(text, max)|
    ensures ChunkSpec(text, max)[k] != []
    ensures !IsWhitespace(ChunkSpec(text, max)[k][0])
    ensures !IsWhitespace(ChunkSpec(text, max)[k][|ChunkSpec(text, max)[k]| - 1])
  {
    var sents := Sentences(text);
    var groups := Pack(sents, max);
    PackIsGreedy(sents, max);
    var g := groups[k];
    assert g != [];
    GroupHeadsAreSentences(groups, k);
    assert g[0] in sents;
    var i :| 0 <= i < |sents| && sents[i] == g[0];
    assert !Blank(g[0]);
    JoinNotBlank(g);
    var joined := Join(g, ". ");
    TrimShape(joined);
    assert ChunkSpec(text, max)[k] == Trim(joined);
  }

  lemma {:induction false} NonBlankEmptyIff(pieces: seq<string>)
    ensures NonBlank(pieces) == [] <==> forall p :: p in pieces ==> Blank(p)
    decreases |pieces|
  {
    if pieces != [] {
      NonBlankEmptyIff(pieces[1..]);
      TrimShape(pieces[0]);
      assert forall p :: p in pieces <==> p == pieces[0] || p in pieces[1..];
    }
  }

  /** `chunkText` returns no chunks exactly when the text has no non-blank
      sentence piece (in particular for the empty text). */
  lemma NoChunksIffBlank(text: string, max: int)
    ensures ChunkSpec(text, max) == [] <==> forall p :: p in SplitSentences(text) ==> Blank(p)
    ensures ChunkSpec("", max) == []
  {
    ChunksPartitionSentences(text, max);
    NonBlankEmptyIff(SplitSentences(text));
    assert SplitSentences("") == [""];
    NonBlankEmptyIff([""]);
    ChunksPartitionSentences("", max);
  }

  /** How the loop of `chunkText` holds the packing so far: the chunks already
      pushed are the trimmed texts of all groups but the last, and the buffer
      `currentChunk` is the joined text of the last group (empty before the
      first sentence). */
  ghost predicate Buffered(groups: seq<seq<string>>, chunks: seq<string>, currentChunk: string) {
    if groups == [] then chunks == [] && currentChunk == ""
    else
      && chunks == ChunksOf(groups[..|groups| - 1])
      && currentChunk == Join(groups[|groups| - 1], ". ")
      && groups[|groups| - 1] != [] && !Blank(groups[|groups| - 1][0])
  }

  /** One iteration of the loop of `chunkText` follows one step of `Pack`. */
  lemma BufferStep(sents: seq<string>, i: nat, max: int, chunks: seq<string>, currentChunk: string)
    requires i < |sents| && !Blank(sents[i])
    requires Buffered(Pack(sents[..i], max), chunks, currentChunk)
    ensures var s := sents[i];
      if |currentChunk + s| > max && currentChunk != "" then
        Buffered(Pack(sents[..i + 1], max), chunks + [Trim(currentChunk)], s)
      else
        Buffered(Pack(sents[..i + 1], max), chunks, currentChunk + (if currentChunk != "" then ". " else "") + s)
  {
    var s := sents[i];
    var groups := Pack(sents[..i], max);
    assert sents[..i + 1][..i] == sents[..i];
    assert sents[..i + 1][i] == s;
    assert s != [];
    if groups == [] {
      assert Pack(sents[..i + 1], max) == [[s]];
    } else {
      var m := |groups|;
      var last := groups[m - 1];
      JoinNotBlank(last);
      assert currentChunk != "";
      if |currentChunk + s| > max {
        var next := groups + [[s]];
        assert Pack(sents[..i + 1], max) == next;
        assert next[..m] == groups;
        assert groups == groups[..m - 1] + [last];
        ChunksOfSnoc(groups[..m - 1], last);
      } else {
        JoinSnoc(last, s, ". ");
        var next := groups[..m - 1] + [last + [s]];
        assert Pack(sents[..i + 1], max) == next;
        assert next[..m - 1] == groups[..m - 1];
      }
    }
  }

  /** After the loop, the final push completes the chunk list. */
  lemma BufferFlush(groups: seq<seq<string>>, chunks: seq<string>, currentChunk: string)
    requires Buffered(groups, chunks, currentChunk)
    ensures (if Trim(currentChunk) != "" then chunks + [Trim(currentChunk)] else chunks) == ChunksOf(groups)
  {
    if groups != [] {
      var m := |groups|;
      JoinNotBlank(groups[m - 1]);
      TrimShape(currentChunk);
      assert groups == groups[..m - 1] + [groups[m - 1]];
      ChunksOfSnoc(groups[..m - 1], groups[m - 1]);
    } else {
      assert Trim("") == "";
    }
  }

  /** `chunkText(text, maxChunkSize)`, step by step as the source runs it. */
  method ChunkText(text: string, maxChunkSize: int) returns (chunks: seq<string>)
    ensures chunks == ChunkSpec(text, maxChunkSize)
  {
    var sentences := Sentences(text);
    chunks := [];
    var currentChunk := "";
    for i := 0 to |sentences|
      invariant Buffered(Pack(sentences[..i], maxChunkSize), chunks, currentChunk)
    {
      var sentence := sentences[i];
      BufferStep(sentences, i, maxChunkSize, chunks, currentChunk);
      if |currentChunk + sentence| > maxChunkSize && currentChunk != "" {
        chunks := chunks + [Trim(currentChunk)];
        currentChunk := sentence;
      } else {
        currentChunk := currentChunk + (if currentChunk != "" then ". " else "") + sentence;
      }
    }
    assert sentences[..|sentences|] == sentences;
    BufferFlush(Pack(sentences, maxChunkSize), chunks, currentChunk);
    if Trim(currentChunk) != "" {
      chunks := chunks + [Trim(currentChunk)];
    }
  }
}
