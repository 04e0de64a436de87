/** The chunks of a transcript as slices of it: what they quote, in which order, and what they leave out. */
module TextSlices {
  import opened Text
  import opened TextSplitter

  datatype Slice = Slice(from: nat, to: nat)

  predicate IsBlank(s: string) {
    forall k :: 0 <= k < |s| ==> IsWhite(s[k])
  }

  predicate IsSlice(text: string, chunk: string, at: Slice) {
    at.from < at.to <= |text| && chunk == text[at.from..at.to]
  }

  predicate InOrder(slices: seq<Slice>) {
    forall n, m :: 0 <= n < m < |slices| ==> slices[n].to <= slices[m].from
  }

  ghost predicate IsQuoted(slices: seq<Slice>, p: nat) {
    exists n :: 0 <= n < |slices| && slices[n].from <= p < slices[n].to
  }

  /** Every chunk is a slice of the text, one after the other, and what is in none of them is whitespace. */
  ghost predicate AreSlices(text: string, chunks: seq<string>, slices: seq<Slice>) {
    && |slices| == |chunks| && InOrder(slices)
    && (forall n :: 0 <= n < |chunks| ==> IsSlice(text, chunks[n], slices[n]))
    && forall p :: 0 <= p < |text| ==> IsWhite(text[p]) || IsQuoted(slices, p)
  }

  function Shifted(slices: seq<Slice>, shift: nat): seq<Slice> {
    seq(|slices|, n requires 0 <= n < |slices| => Slice(slices[n].from + shift, slices[n].to + shift))
  }

  lemma OrderJoins(a: string, chunksA: seq<string>, slicesA: seq<Slice>, slicesB: seq<Slice>)
    requires AreSlices(a, chunksA, slicesA) && InOrder(slicesB)
    ensures InOrder(slicesA + Shifted(slicesB, |a|))
  {
    var all := slicesA + Shifted(slicesB, |a|);
    forall n, m | 0 <= n < m < |all| ensures all[n].to <= all[m].from {
      if n < |slicesA| <= m { assert IsSlice(a, chunksA[n], slicesA[n]); }
    }
  }

  lemma QuotedJoins(a: string, slicesA: seq<Slice>, slicesB: seq<Slice>, p: nat)
    ensures IsQuoted(slicesA, p) ==> IsQuoted(slicesA + Shifted(slicesB, |a|), p)
    ensures p >= |a| && IsQuoted(slicesB, p - |a|) ==> IsQuoted(slicesA + Shifted(slicesB, |a|), p)
  {
    var all := slicesA + Shifted(slicesB, |a|);
    if n :| 0 <= n < |slicesA| && slicesA[n].from <= p < slicesA[n].to { assert all[n] == slicesA[n]; }
    if p >= |a| {
      if n :| 0 <= n < |slicesB| && slicesB[n].from <= p - |a| < slicesB[n].to {
        assert all[|slicesA| + n].from <= p < all[|slicesA| + n].to;
      }
    }
  }

  lemma SliceStays(a: string, b: string, chunk: string, at: Slice)
    ensures IsSlice(a, chunk, at) ==> IsSlice(a + b, chunk, at)
    ensures IsSlice(b, chunk, at) ==> IsSlice(a + b, chunk, Slice(at.from + |a|, at.to + |a|))
  {
    if IsSlice(a, chunk, at) { assert (a + b)[at.from..at.to] == a[at.from..at.to]; }
    if IsSlice(b, chunk, at) { assert (a + b)[at.from + |a|..at.to + |a|] == b[at.from..at.to]; }
  }

  /** Slices of two texts are slices of the two put together. */
  lemma SlicesJoin(
    a: string, chunksA: seq<string>, slicesA: seq<Slice>, b: string, chunksB: seq<string>, slicesB: seq<Slice>)
    requires AreSlices(a, chunksA, slicesA) && AreSlices(b, chunksB, slicesB)
    ensures AreSlices(a + b, chunksA + chunksB, slicesA + Shifted(slicesB, |a|))
  {
    var text, chunks, all := a + b, chunksA + chunksB, slicesA + Shifted(slicesB, |a|);
    OrderJoins(a, chunksA, slicesA, slicesB);
    forall n | 0 <= n < |chunks| ensures IsSlice(text, chunks[n], all[n]) {
      if n < |chunksA| {
        SliceStays(a, b, chunksA[n], slicesA[n]);
      } else {
        SliceStays(a, b, chunksB[n - |chunksA|], slicesB[n - |chunksA|]);
      }
    }
    forall p | 0 <= p < |text| ensures IsWhite(text[p]) || IsQuoted(all, p) {
      QuotedJoins(a, slicesA, slicesB, p);
      assert text[p] == if p < |a| then a[p] else b[p - |a|];
    }
  }

  lemma BlankHasNone(s: string)
    requires IsBlank(s)
    ensures AreSlices(s, [], [])
  {}

  lemma WholeIsOne(s: string)
    requires s != ""
    ensures AreSlices(s, [s], [Slice(0, |s|)])
  {
    var slices := [Slice(0, |s|)];
    assert s[0..|s|] == s;
    forall p | 0 <= p < |s| ensures IsQuoted(slices, p) { assert slices[0].from <= p < slices[0].to; }
  }

  /** The text without its outer whitespace is the slice [a, b). */
  predicate IsInner(s: string, inner: string, a: nat, b: nat) {
    a <= b <= |s| && inner == s[a..b] && IsBlank(s[..a]) && IsBlank(s[b..])
  }

  lemma InnerAfter(s: string, inner: string, a: nat, b: nat)
    requires s != "" && IsWhite(s[0]) && IsInner(s[1..], inner, a, b)
    ensures IsInner(s, inner, a + 1, b + 1)
  {
    assert s[1..][a..b] == s[a + 1..b + 1] && s[1..][b..] == s[b + 1..];
    assert s[..a + 1] == [s[0]] + s[1..][..a];
  }

  lemma InnerBefore(s: string, inner: string, a: nat, b: nat)
    requires s != "" && IsWhite(s[|s| - 1]) && IsInner(s[..|s| - 1], inner, a, b)
    ensures IsInner(s, inner, a, b)
  {
    var front := s[..|s| - 1];
    assert front[a..b] == s[a..b] && front[..a] == s[..a];
    assert s[b..] == front[b..] + [s[|s| - 1]];
  }

  /** Trimming takes whitespace off the two ends, and nothing else. */
  lemma {:induction false} TrimIsInner(s: string) returns (a: nat, b: nat)
    ensures IsInner(s, Trim(s), a, b)
  {
    if s != "" && IsWhite(s[0]) {
      a, b := TrimIsInner(s[1..]);
      InnerAfter(s, Trim(s), a, b);
      a, b := a + 1, b + 1;
    } else if s != "" && IsWhite(s[|s| - 1]) {
      a, b := TrimIsInner(s[..|s| - 1]);
      InnerBefore(s, Trim(s), a, b);
    } else {
      a, b := 0, |s|;
    }
  }

  /** Slices of the trimmed text are, somewhat later, slices of the text. */
  lemma TrimmedSlices(s: string, chunks: seq<string>, inner: seq<Slice>) returns (slices: seq<Slice>)
    requires AreSlices(Trim(s), chunks, inner)
    ensures AreSlices(s, chunks, slices)
  {
    var a, b := TrimIsInner(s);
    BlankHasNone(s[..a]);
    BlankHasNone(s[b..]);
    SlicesJoin(s[..a], [], [], s[a..b], chunks, inner);
    slices := [] + Shifted(inner, |s[..a]|);
    SlicesJoin(s[..a] + s[a..b], [] + chunks, slices, s[b..], [], []);
    assert s[..a] + s[a..b] + s[b..] == s && [] + chunks + [] == chunks;
    slices := slices + Shifted([], |s[..a] + s[a..b]|);
  }

  lemma PieceSlices(piece: string) returns (slices: seq<Slice>)
    ensures AreSlices(piece, AsChunk(piece), slices)
  {
    if Trim(piece) == "" { BlankHasNone(Trim(piece)); } else { WholeIsOne(Trim(piece)); }
    slices := TrimmedSlices(piece, AsChunk(piece), if Trim(piece) == "" then [] else [Slice(0, |Trim(piece)|)]);
  }

  lemma TrimmedFirst(piece: string, rest: seq<string>)
    ensures Trimmed([piece] + rest) == AsChunk(piece) + Trimmed(rest)
  {
    assert ([piece] + rest)[1..] == rest;
  }

  lemma PiecesFirst(s: string, limit: nat)
    requires limit > 0 && s != ""
    ensures var end := ChunkEnd(s, limit); Pieces(s, limit) == [s[..end]] + Pieces(s[end..], limit)
  {}

  lemma SlicesMore(
    s: string, end: nat, first: seq<Slice>, pieces: seq<string>, rest: seq<Slice>) returns (slices: seq<Slice>)
    requires end <= |s| && AreSlices(s[..end], AsChunk(s[..end]), first) && AreSlices(s[end..], Trimmed(pieces), rest)
    ensures AreSlices(s, Trimmed([s[..end]] + pieces), slices)
  {
    TrimmedFirst(s[..end], pieces);
    SlicesJoin(s[..end], AsChunk(s[..end]), first, s[end..], Trimmed(pieces), rest);
    assert s[..end] + s[end..] == s;
    slices := first + Shifted(rest, |s[..end]|);
  }

  lemma {:induction false} PiecesSlices(s: string, limit: nat) returns (slices: seq<Slice>)
    requires limit > 0
    ensures AreSlices(s, Trimmed(Pieces(s, limit)), slices)
  {
    if s == "" {
      slices := [];
    } else {
      var end := ChunkEnd(s, limit);
      ChunkEndFits(s, limit);
      PiecesFirst(s, limit);
      var first := PieceSlices(s[..end]);
      var rest := PiecesSlices(s[end..], limit);
      slices := SlicesMore(s, end, first, Pieces(s[end..], limit), rest);
    }
  }

  /** The chunks of a text are slices of it, word for word and in order, and leave out only whitespace. */
  lemma ChunksAreSlices(text: string, limit: nat) returns (slices: seq<Slice>)
    requires limit > 0
    ensures AreSlices(text, SplitChunks(text, limit), slices)
  {
    var inner := PiecesSlices(Trim(text), limit);
    slices := TrimmedSlices(text, SplitChunks(text, limit), inner);
  }

  /** A text within the limit is one chunk, and a blank one none. */
  lemma ShortTextIsOneChunk(text: string, limit: nat)
    requires |Trim(text)| <= limit && limit > 0
    ensures SplitChunks(text, limit) == if Trim(text) == "" then [] else [Trim(text)]
  {
    var s := Trim(text);
    if s != "" {
      assert s[..|s|] == s && s[|s|..] == "";
      assert Pieces(s, limit) == [s] + Pieces("", limit);
      TrimmedStays(s);
      assert Trimmed([s]) == AsChunk(s) + Trimmed([s][1..]);
    }
  }

  // ----- the segments of a payload -----

  /** Where a chunk comes from: a segment, and a slice of its text. */
  datatype Origin = Origin(segment: nat, at: Slice)

  predicate IsCutFrom(chunk: Chunk, segments: seq<Segment>, o: Origin) {
    && o.segment < |segments| && IsSlice(segments[o.segment].text, chunk.text, o.at)
    && chunk.speaker == segments[o.segment].speaker
    && chunk.start == segments[o.segment].start && chunk.end == segments[o.segment].end
  }

  predicate IsBefore(a: Origin, b: Origin) {
    a.segment < b.segment || (a.segment == b.segment && a.at.to <= b.at.from)
  }

  ghost predicate IsCovered(origins: seq<Origin>, j: nat, p: nat) {
    exists n :: && 0 <= n < |origins| && origins[n].segment == j
                && origins[n].at.from <= p < origins[n].at.to
  }

  ghost predicate OthersBlank(segments: seq<Segment>, origins: seq<Origin>) {
    forall j, p :: 0 <= j < |segments| && 0 <= p < |segments[j].text| ==>
      IsWhite(segments[j].text[p]) || IsCovered(origins, j, p)
  }

  /** Every chunk is a slice of a segment under that segment's speaker and times, in the order of the
      segments and within each, and what no chunk quotes is whitespace. */
  ghost predicate AreCutFrom(chunks: seq<Chunk>, segments: seq<Segment>, origins: seq<Origin>) {
    && |origins| == |chunks|
    && (forall n :: 0 <= n < |chunks| ==> IsCutFrom(chunks[n], segments, origins[n]))
    && (forall n, m :: 0 <= n < m < |origins| ==> IsBefore(origins[n], origins[m]))
    && OthersBlank(segments, origins)
  }

  function InSegment(j: nat, slices: seq<Slice>): seq<Origin> {
    seq(|slices|, n requires 0 <= n < |slices| => Origin(j, slices[n]))
  }

  lemma BlankMore(segments: seq<Segment>, origins: seq<Origin>, last: Segment, slices: seq<Slice>)
    requires OthersBlank(segments, origins)
    requires forall p :: 0 <= p < |last.text| ==> IsWhite(last.text[p]) || IsQuoted(slices, p)
    ensures OthersBlank(segments + [last], origins + InSegment(|segments|, slices))
  {
    var more, all := segments + [last], origins + InSegment(|segments|, slices);
    forall j, p | 0 <= j < |more| && 0 <= p < |more[j].text|
      ensures IsWhite(more[j].text[p]) || IsCovered(all, j, p)
    {
      if j < |segments| {
        if n :| && 0 <= n < |origins| && origins[n].segment == j && origins[n].at.from <= p < origins[n].at.to {
          assert all[n] == origins[n];
        }
      } else if n :| 0 <= n < |slices| && slices[n].from <= p < slices[n].to {
        assert all[|origins| + n] == Origin(j, slices[n]);
      }
    }
  }

  lemma CutMore(
    chunks: seq<Chunk>, segments: seq<Segment>, origins: seq<Origin>, last: Segment, texts: seq<string>,
    slices: seq<Slice>)
    requires AreCutFrom(chunks, segments, origins) && AreSlices(last.text, texts, slices)
    ensures AreCutFrom(
              chunks + Timed(texts, last.speaker, last.start, last.end), segments + [last],
              origins + InSegment(|segments|, slices))
  {
    var tail, more := Timed(texts, last.speaker, last.start, last.end), segments + [last];
    var all := origins + InSegment(|segments|, slices);
    BlankMore(segments, origins, last, slices);
    forall n | 0 <= n < |chunks + tail| ensures IsCutFrom((chunks + tail)[n], more, all[n]) {
      if n < |chunks| {
        assert IsCutFrom(chunks[n], segments, origins[n]);
      } else {
        assert IsSlice(last.text, texts[n - |chunks|], slices[n - |chunks|]);
      }
    }
    forall n, m | 0 <= n < m < |all| ensures IsBefore(all[n], all[m]) {
      if n < |origins| <= m { assert IsCutFrom(chunks[n], segments, origins[n]); }
      if n < m < |origins| { assert IsBefore(origins[n], origins[m]); }
    }
  }

  lemma NothingIsCut()
    ensures AreCutFrom([], [], [])
  {}

  lemma SegmentChunksMore(front: seq<Segment>, last: Segment)
    ensures SegmentChunks(front + [last]) ==
            SegmentChunks(front) + Timed(SplitChunks(last.text, MAX_CHUNK), last.speaker, last.start, last.end)
  {
    assert (front + [last])[..|front|] == front;
  }

  lemma SegmentIsCut(front: seq<Segment>, before: seq<Origin>, last: Segment) returns (origins: seq<Origin>)
    requires AreCutFrom(SegmentChunks(front), front, before)
    ensures AreCutFrom(SegmentChunks(front + [last]), front + [last], origins)
  {
    var slices := ChunksAreSlices(last.text, MAX_CHUNK);
    CutMore(SegmentChunks(front), front, before, last, SplitChunks(last.text, MAX_CHUNK), slices);
    SegmentChunksMore(front, last);
    origins := before + InSegment(|front|, slices);
  }

  lemma {:induction false} SegmentsAreCut(segments: seq<Segment>) returns (origins: seq<Origin>)
    ensures AreCutFrom(SegmentChunks(segments), segments, origins)
  {
    if segments == [] {
      origins := [];
      NothingIsCut();
    } else {
      var front, last := segments[..|segments| - 1], segments[|segments| - 1];
      var before := SegmentsAreCut(front);
      origins := SegmentIsCut(front, before, last);
      assert front + [last] == segments;
    }
  }

  /** What the chunks of a payload are: slices of its segments, or of its text when it has none. */
  ghost predicate Quotes(chunks: seq<Chunk>, p: Payload) {
    if p.segments == []
    then && (exists slices :: AreSlices(p.text, Texts(chunks), slices))
         && forall n :: 0 <= n < |chunks| ==> chunks[n].speaker == "" && chunks[n].start == chunks[n].end == 0.0
    else exists origins :: AreCutFrom(chunks, p.segments, origins)
  }

  lemma PayloadIsQuoted(p: Payload)
    ensures Quotes(PayloadChunks(p), p)
  {
    if p.segments == [] {
      var slices := ChunksAreSlices(p.text, MAX_CHUNK);
      assert Texts(PayloadChunks(p)) == SplitChunks(p.text, MAX_CHUNK);
    } else {
      var origins := SegmentsAreCut(p.segments);
    }
  }
}
