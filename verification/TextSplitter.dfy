/** Cutting a transcript into chunks for the search index. */
module TextSplitter {
  import opened Text

  predicate IsBreak(c: char) {
    c == ' ' || c == '\n'
  }

  /** The last place in (low, high] right after a space or a newline, or low. */
  function LastBreak(s: string, low: nat, high: nat): (end: nat)
    requires low <= high <= |s|
    ensures low <= end <= high && (end > low ==> IsBreak(s[end - 1]))
    ensures forall k :: end <= k < high ==> !IsBreak(s[k])
  {
    if high == low then low else if IsBreak(s[high - 1]) then high else LastBreak(s, low, high - 1)
  }

  /** How much of the remaining runes the next chunk takes. */
  function ChunkEnd(s: string, limit: nat): nat
    requires s != "" && limit > 0
  {
    if |s| <= limit then |s|
    else
      var end := LastBreak(s, limit / 2, limit);
      if end > limit / 2 then end else limit
  }

  /** The pieces that the text is cut into. */
  function Pieces(s: string, limit: nat): seq<string>
    requires limit > 0
  {
    if s == "" then [] else [s[..ChunkEnd(s, limit)]] + Pieces(s[ChunkEnd(s, limit)..], limit)
  }

  function AsChunk(piece: string): seq<string> {
    if Trim(piece) == "" then [] else [Trim(piece)]
  }

  function Trimmed(pieces: seq<string>): seq<string> {
    if pieces == [] then [] else AsChunk(pieces[0]) + Trimmed(pieces[1..])
  }

  function SplitChunks(text: string, limit: int): seq<string> {
    if limit <= 0 then [] else Trimmed(Pieces(Trim(text), limit))
  }

  /** Looks back from the limit for a space or a newline, down to half of it. */
  method FindEnd(remaining: string, limit: nat) returns (end: nat)
    requires remaining != "" && limit > 0
    ensures end == ChunkEnd(remaining, limit)
  {
    end := if limit < |remaining| then limit else |remaining|;
    if end < |remaining| {
      var i := end;
      while i > limit / 2
        invariant limit / 2 <= i <= limit && end == limit
        invariant LastBreak(remaining, limit / 2, limit) == LastBreak(remaining, limit / 2, i)
      {
        if remaining[i - 1] == ' ' || remaining[i - 1] == '\n' {
          end := i;
          break;
        }
        i := i - 1;
      }
    }
  }

  lemma TrimmedStep(out: seq<string>, piece: string, rest: seq<string>)
    ensures out + Trimmed([piece] + rest) == (out + AsChunk(piece)) + Trimmed(rest)
  {
    assert ([piece] + rest)[1..] == rest;
    Associate(out, AsChunk(piece), Trimmed(rest));
  }

  method SplitText(text: string, limit: int) returns (out: seq<string>)
    ensures out == SplitChunks(text, limit)
  {
    if limit <= 0 { return []; }
    var remaining := Trim(text);
    ghost var whole := Trimmed(Pieces(remaining, limit));
    out := [];
    while |remaining| > 0
      invariant out + Trimmed(Pieces(remaining, limit)) == whole
    {
      var end := FindEnd(remaining, limit);
      TrimmedStep(out, remaining[..end], Pieces(remaining[end..], limit));
      var chunk := Trim(remaining[..end]);
      assert out + AsChunk(remaining[..end]) == if chunk == "" then out else out + [chunk];
      if chunk != "" {
        out := out + [chunk];
      }
      remaining := remaining[end..];
    }
  }

  // ----- what the chunks are -----

  /** A step takes more than half of the limit, and at most the limit; it cuts right after the last space
      or newline of the second half, and anywhere else only when there is none. */
  lemma ChunkEndFits(s: string, limit: nat)
    requires s != "" && limit > 0
    ensures var end := ChunkEnd(s, limit);
            && 0 < end <= |s| && end <= limit
            && (end < |s| ==> end >= limit / 2 + 1)
            && (end < |s| && s[end - 1] in {' ', '\n'} ==> forall k :: end <= k < limit ==> s[k] !in {' ', '\n'})
            && (end < |s| && s[end - 1] !in {' ', '\n'} ==>
                  end == limit && forall k :: limit / 2 <= k < limit ==> s[k] !in {' ', '\n'})
  {
    assert forall k :: 0 <= k < |s| ==> (IsBreak(s[k]) <==> s[k] in {' ', '\n'});
  }

  predicate IsChunk(chunk: string, limit: nat) {
    chunk != "" && IsTrimmed(chunk) && |chunk| <= limit
  }

  lemma {:induction false} PiecesFit(s: string, limit: nat)
    requires limit > 0
    ensures forall k :: 0 <= k < |Pieces(s, limit)| ==> 0 < |Pieces(s, limit)[k]| <= limit
  {
    if s != "" {
      ChunkEndFits(s, limit);
      PiecesFit(s[ChunkEnd(s, limit)..], limit);
    }
  }

  lemma {:induction false} TrimmedFit(pieces: seq<string>, limit: nat)
    requires forall k :: 0 <= k < |pieces| ==> |pieces[k]| <= limit
    ensures forall k :: 0 <= k < |Trimmed(pieces)| ==> IsChunk(Trimmed(pieces)[k], limit)
  {
    if pieces != [] { TrimmedFit(pieces[1..], limit); }
  }

  function Joined(chunks: seq<string>): string {
    if chunks == [] then "" else chunks[0] + Joined(chunks[1..])
  }

  lemma {:induction false} JoinedMore(a: seq<string>, b: seq<string>)
    ensures Joined(a + b) == Joined(a) + Joined(b)
  {
    if a == [] {
      assert a + b == b;
    } else {
      assert (a + b)[0] == a[0] && (a + b)[1..] == a[1..] + b;
      JoinedMore(a[1..], b);
    }
  }

  lemma JoinedOne(chunk: string)
    ensures Joined([chunk]) == chunk
  {
    assert [chunk][1..] == [];
    assert Joined([chunk]) == chunk + "";
  }

  lemma AsChunkKeeps(piece: string)
    ensures Squeezed(Joined(AsChunk(piece))) == Squeezed(piece)
  {
    TrimSqueezed(piece);
    JoinedOne(Trim(piece));
  }

  lemma JoinKeeps(front: string, back: string, chunk: seq<string>, rest: seq<string>)
    requires Squeezed(Joined(chunk)) == Squeezed(front) && Squeezed(Joined(rest)) == Squeezed(back)
    ensures Squeezed(Joined(chunk + rest)) == Squeezed(front + back)
  {
    JoinedMore(chunk, rest);
    SqueezedJoin(Joined(chunk), Joined(rest));
    SqueezedJoin(front, back);
  }

  /** Nothing is lost but whitespace. */
  lemma {:induction false} TrimmedKeeps(pieces: seq<string>)
    ensures Squeezed(Joined(Trimmed(pieces))) == Squeezed(Joined(pieces))
  {
    if pieces != [] {
      TrimmedKeeps(pieces[1..]);
      AsChunkKeeps(pieces[0]);
      JoinKeeps(pieces[0], Joined(pieces[1..]), AsChunk(pieces[0]), Trimmed(pieces[1..]));
    }
  }

  lemma JoinedFirst(piece: string, pieces: seq<string>)
    ensures Joined([piece] + pieces) == piece + Joined(pieces)
  {
    assert ([piece] + pieces)[1..] == pieces;
  }

  lemma {:induction false} PiecesKeep(s: string, limit: nat)
    requires limit > 0
    ensures Joined(Pieces(s, limit)) == s
  {
    if s != "" {
      ChunkEndFits(s, limit);
      var end := ChunkEnd(s, limit);
      PiecesKeep(s[end..], limit);
      JoinedFirst(s[..end], Pieces(s[end..], limit));
      assert s[..end] + s[end..] == s;
    }
  }

  lemma OneMore(n: int, m: int)
    ensures n * m == (n - 1) * m + m
  {}

  /** All pieces but the last take more than half of the limit each. */
  lemma {:induction false} PiecesAreFew(s: string, limit: nat, most: nat)
    requires limit > 0 && s != "" && most == limit / 2 + 1
    ensures (|Pieces(s, limit)| - 1) * most < |s|
  {
    ChunkEndFits(s, limit);
    var rest := s[ChunkEnd(s, limit)..];
    var n := |Pieces(rest, limit)|;
    OneMore(n, most);
    assert |Pieces(s, limit)| == n + 1;
    if rest != "" { PiecesAreFew(rest, limit, most); }
  }

  lemma Fewer(n: int, m: int, most: nat, size: int)
    requires n <= m && (m - 1) * most < size
    ensures (n - 1) * most < size
  {
    assert (m - 1) * most == (n - 1) * most + (m - n) * most;
  }

  /** The chunks are trimmed, not empty and within the limit, and hold the text whitespace aside. */
  ghost predicate Holds(chunks: seq<string>, text: string, limit: nat) {
    && Squeezed(Joined(chunks)) == Squeezed(text)
    && forall k :: 0 <= k < |chunks| ==> IsChunk(chunks[k], limit)
  }

  lemma PiecesHold(s: string, limit: nat)
    requires limit > 0
    ensures Holds(Trimmed(Pieces(s, limit)), s, limit)
  {
    PiecesKeep(s, limit);
    TrimmedKeeps(Pieces(s, limit));
    PiecesFit(s, limit);
    TrimmedFit(Pieces(s, limit), limit);
  }

  lemma {:induction false} TrimmedCount(pieces: seq<string>)
    ensures |Trimmed(pieces)| <= |pieces|
  {
    if pieces != [] { TrimmedCount(pieces[1..]); }
  }

  /** All chunks but one took more than half of the limit from the text. */
  lemma ChunksAreFew(s: string, limit: nat)
    requires limit > 0 && s != ""
    ensures (|Trimmed(Pieces(s, limit))| - 1) * (limit / 2 + 1) < |s|
  {
    var most := limit / 2 + 1;
    PiecesAreFew(s, limit, most);
    TrimmedCount(Pieces(s, limit));
    Fewer(|Trimmed(Pieces(s, limit))|, |Pieces(s, limit)|, most, |s|);
  }

  lemma HoldsTrimmed(chunks: seq<string>, text: string, trimmed: string, limit: nat)
    requires Holds(chunks, trimmed, limit) && Squeezed(trimmed) == Squeezed(text)
    ensures Holds(chunks, text, limit)
  {}

  lemma SplitHolds(text: string, limit: nat)
    requires limit > 0
    ensures Holds(SplitChunks(text, limit), text, limit)
  {
    TrimSqueezed(text);
    PiecesHold(Trim(text), limit);
    HoldsTrimmed(SplitChunks(text, limit), text, Trim(text), limit);
  }

  // ----- the payload of a revision -----

  datatype Segment = Segment(text: string, speaker: string, start: real, end: real)

  datatype Payload = Payload(text: string, segments: seq<Segment>)

  datatype Chunk = Chunk(text: string, speaker: string, start: real, end: real)

  const MAX_CHUNK := 1800

  function Timed(texts: seq<string>, speaker: string, start: real, end: real): seq<Chunk> {
    seq(|texts|, k requires 0 <= k < |texts| => Chunk(texts[k], speaker, start, end))
  }

  function SegmentChunks(segments: seq<Segment>): seq<Chunk> {
    if segments == [] then []
    else
      var last := segments[|segments| - 1];
      SegmentChunks(segments[..|segments| - 1])
      + Timed(SplitChunks(last.text, MAX_CHUNK), last.speaker, last.start, last.end)
  }

  function PayloadChunks(p: Payload): seq<Chunk> {
    if p.segments == [] then Timed(SplitChunks(p.text, MAX_CHUNK), "", 0.0, 0.0) else SegmentChunks(p.segments)
  }

  lemma TimedMore(texts: seq<string>, k: nat, speaker: string, start: real, end: real, out: seq<Chunk>)
    requires k < |texts|
    ensures out + Timed(texts[..k + 1], speaker, start, end) ==
            (out + Timed(texts[..k], speaker, start, end)) + [Chunk(texts[k], speaker, start, end)]
  {}

  method AppendTimed(out: seq<Chunk>, text: string, speaker: string, start: real, end: real) returns (more: seq<Chunk>)
    ensures more == out + Timed(SplitChunks(text, MAX_CHUNK), speaker, start, end)
  {
    var texts := SplitText(text, MAX_CHUNK);
    more := out;
    for k := 0 to |texts|
      invariant more == out + Timed(texts[..k], speaker, start, end)
    {
      TimedMore(texts, k, speaker, start, end, out);
      more := more + [Chunk(texts[k], speaker, start, end)];
    }
    assert texts[..|texts|] == texts;
  }

  lemma SegmentStep(segments: seq<Segment>, k: nat)
    requires k < |segments|
    ensures var s := segments[k];
            SegmentChunks(segments[..k + 1]) ==
            SegmentChunks(segments[..k]) + Timed(SplitChunks(s.text, MAX_CHUNK), s.speaker, s.start, s.end)
  {
    assert segments[..k + 1][..k] == segments[..k];
  }

  method ChunkPayload(p: Payload) returns (out: seq<Chunk>)
    ensures out == PayloadChunks(p)
  {
    out := [];
    if |p.segments| == 0 {
      out := AppendTimed(out, p.text, "", 0.0, 0.0);
      return;
    }
    for k := 0 to |p.segments|
      invariant out == SegmentChunks(p.segments[..k])
    {
      var segment := p.segments[k];
      SegmentStep(p.segments, k);
      out := AppendTimed(out, segment.text, segment.speaker, segment.start, segment.end);
    }
    assert p.segments[..|p.segments|] == p.segments;
  }

  function Texts(chunks: seq<Chunk>): seq<string> {
    seq(|chunks|, k requires 0 <= k < |chunks| => chunks[k].text)
  }

  function Spoken(segments: seq<Segment>): string {
    if segments == [] then "" else Spoken(segments[..|segments| - 1]) + segments[|segments| - 1].text
  }

  /** Every chunk has the speaker and the times of a segment. */
  ghost predicate FromSegments(chunks: seq<Chunk>, segments: seq<Segment>) {
    forall k :: 0 <= k < |chunks| ==> FromSegment(chunks[k], segments)
  }

  ghost predicate FromSegment(chunk: Chunk, segments: seq<Segment>) {
    exists j :: 0 <= j < |segments|
                && chunk.speaker == segments[j].speaker && chunk.start == segments[j].start
                && chunk.end == segments[j].end
  }

  lemma TextsMore(chunks: seq<Chunk>, texts: seq<string>, speaker: string, start: real, end: real)
    ensures Texts(chunks + Timed(texts, speaker, start, end)) == Texts(chunks) + texts
  {}

  /** The chunks hold what was said, whitespace aside. */
  lemma {:induction false} SegmentsAreKept(segments: seq<Segment>)
    ensures Squeezed(Joined(Texts(SegmentChunks(segments)))) == Squeezed(Spoken(segments))
  {
    if segments != [] {
      var front, last := segments[..|segments| - 1], segments[|segments| - 1];
      var texts := SplitChunks(last.text, MAX_CHUNK);
      SegmentsAreKept(front);
      SplitHolds(last.text, MAX_CHUNK);
      TextsMore(SegmentChunks(front), texts, last.speaker, last.start, last.end);
      JoinKeeps(Spoken(front), last.text, Texts(SegmentChunks(front)), texts);
    }
  }

  /** Every chunk is under the speaker and the times of a segment. */
  lemma {:induction false} SegmentsAreNamed(segments: seq<Segment>)
    ensures FromSegments(SegmentChunks(segments), segments)
  {
    if segments != [] {
      var front, last := segments[..|segments| - 1], segments[|segments| - 1];
      SegmentsAreNamed(front);
      SegmentsMore(
        SegmentChunks(front), front, Timed(SplitChunks(last.text, MAX_CHUNK), last.speaker, last.start, last.end),
        last);
      assert front + [last] == segments;
    }
  }

  lemma SegmentsMore(chunks: seq<Chunk>, front: seq<Segment>, tail: seq<Chunk>, last: Segment)
    requires FromSegments(chunks, front)
    requires forall k :: 0 <= k < |tail| ==>
               tail[k].speaker == last.speaker && tail[k].start == last.start && tail[k].end == last.end
    ensures FromSegments(chunks + tail, front + [last])
  {
    var segments := front + [last];
    forall k | 0 <= k < |chunks + tail| ensures FromSegment((chunks + tail)[k], segments) {
      if k < |chunks| {
        assert FromSegment(chunks[k], front);
        var j :| 0 <= j < |front|
                 && chunks[k].speaker == front[j].speaker && chunks[k].start == front[j].start
                 && chunks[k].end == front[j].end;
        assert segments[j] == front[j];
      } else {
        assert segments[|front|] == last;
      }
    }
  }
}
