/**
 * The boundary-aware text chunker of `src/lib/chunking.ts`.
 *
 * The document is trimmed once; a cursor then walks the cleaned text. Each
 * window is at most `chunkSize` characters long; a window that is not the last
 * one is cut back, inside a lookback of 200 characters, just after the last
 * sentence terminator followed by whitespace, else after the last blank line,
 * else at the last space. A window yields a chunk when its trimmed text has at
 * least `minChunkSize` characters, and the cursor moves to
 * `max(end - overlap, start + 1)`.
 *
 * `Windows` lists the windows the loop processes and `ChunksFrom` the chunks
 * it pushes; `ChunkText` is the loop itself and is proved to compute `Chunks`.
 * `PreviewChunking` summarises the chunks.
 */
module Chunking {
  import opened Wrappers
  import opened Text

  /** One emitted chunk: its trimmed text and the window `[startIndex, endIndex)` of the cleaned text. */
  datatype TextChunk = TextChunk(text: string, startIndex: nat, endIndex: nat)

  /** The caller's options; an omitted field takes its default. */
  datatype ChunkingOptions = ChunkingOptions(chunkSize: Option<int>, overlap: Option<int>, minChunkSize: Option<int>)

  /** The options after defaults are applied. */
  datatype Config = Config(chunkSize: int, overlap: int, minChunkSize: int)

  const DefaultChunkSize: int := 1000
  const DefaultOverlap: int := 200
  const DefaultMinChunkSize: int := 100

  /** How far back from a tentative cut the boundary search looks. */
  const Lookback: nat := 200

  /** The destructuring with defaults of lines 26-30. */
  function Resolve(options: ChunkingOptions): (cfg: Config)
    ensures cfg.chunkSize == if options.chunkSize.Some? then options.chunkSize.value else 1000
    ensures cfg.overlap == if options.overlap.Some? then options.overlap.value else 200
    ensures cfg.minChunkSize == if options.minChunkSize.Some? then options.minChunkSize.value else 100
  {
    Config(
      options.chunkSize.GetOr(DefaultChunkSize),
      options.overlap.GetOr(DefaultOverlap),
      options.minChunkSize.GetOr(DefaultMinChunkSize))
  }

  function Min(a: int, b: int): int {
    if a < b then a else b
  }

  // ---------------------------------------------------------------------------
  // The sentence-ending regular expression /[.!?]\s+/g

  predicate IsTerminator(c: char) {
    c == '.' || c == '!' || c == '?'
  }

  /** No terminator is whitespace. */
  lemma TerminatorIsNotWhite(c: char)
    requires IsTerminator(c)
    ensures !IsWhite(c)
  {
    if IsWhite(c) {
      WhiteIsNotPrintable(c);
    }
  }

  /**
   * A match of `[.!?]\s+` starts at `p`. A terminator is never whitespace, so
   * no such position can lie inside another match: the matches that a global
   * scan finds are exactly these positions.
   */
  predicate SentenceEndAt(s: string, p: int): (b: bool)
    ensures b <==> 0 <= p < |s| - 1 && s[p] in ".!?" && IsWhite(s[p + 1])
    ensures b ==> !IsWhite(s[p])
  {
    if 0 <= p && p + 1 < |s| && IsTerminator(s[p]) then
      TerminatorIsNotWhite(s[p]);
      IsWhite(s[p + 1])
    else false
  }

  /** A regular-expression match: its `index` and the length of `match[0]`. */
  datatype Match = Match(index: nat, length: nat)

  /** `exec` of `/[.!?]\s+/g` on `s` with `lastIndex == from`: the leftmost match at or after `from`. */
  function Exec(s: string, from: nat): (m: Option<Match>)
    ensures m.None? ==> forall p :: from <= p ==> !SentenceEndAt(s, p)
    ensures m.Some? ==>
      && from <= m.value.index
      && SentenceEndAt(s, m.value.index)
      && (forall p :: from <= p < m.value.index ==> !SentenceEndAt(s, p))
      && m.value.index + m.value.length == WhiteRunEnd(s, m.value.index + 1)
    decreases |s| - from
  {
    if from + 1 >= |s| then None
    else if SentenceEndAt(s, from) then Some(Match(from, WhiteRunEnd(s, from + 1) - from))
    else Exec(s, from + 1)
  }

  /** Where the last match of `[.!?]\s+` starting below `n` starts. */
  function LastSentenceStart(s: string, n: nat): (r: Option<nat>)
    ensures r.None? ==> forall p :: p < n ==> !SentenceEndAt(s, p)
    ensures r.Some? ==>
      && r.value < n
      && SentenceEndAt(s, r.value)
      && forall p :: r.value < p < n ==> !SentenceEndAt(s, p)
  {
    if n == 0 then None
    else if SentenceEndAt(s, n - 1) then Some(n - 1)
    else LastSentenceStart(s, n - 1)
  }

  /**
   * The loop of lines 51-57: run the global expression over `sub` until `exec`
   * fails, keeping the last match.
   */
  method LastSentenceMatch(sub: string) returns (lastMatch: Option<Match>)
    ensures lastMatch.None? <==> forall p :: 0 <= p < |sub| ==> !SentenceEndAt(sub, p)
    ensures lastMatch.Some? ==>
      && SentenceEndAt(sub, lastMatch.value.index)
      && (forall p :: lastMatch.value.index < p < |sub| ==> !SentenceEndAt(sub, p))
      && lastMatch.value.index + lastMatch.value.length == WhiteRunEnd(sub, lastMatch.value.index + 1)
  {
    var lastIndex: nat := 0;
    lastMatch := None;
    var found := Exec(sub, lastIndex);
    while found.Some?
      invariant lastIndex <= |sub|
      invariant found == Exec(sub, lastIndex)
      invariant lastMatch.None? ==> forall p :: 0 <= p < lastIndex ==> !SentenceEndAt(sub, p)
      invariant lastMatch.Some? ==>
        && lastMatch.value.index < lastIndex
        && SentenceEndAt(sub, lastMatch.value.index)
        && (forall p :: lastMatch.value.index < p < lastIndex ==> !SentenceEndAt(sub, p))
        && lastMatch.value.index + lastMatch.value.length == WhiteRunEnd(sub, lastMatch.value.index + 1)
      decreases |sub| - lastIndex
    {
      var index := found.value.index;
      ghost var previous := lastIndex;
      assert SentenceEndAt(sub, index) && IsWhite(sub[index + 1]);
      lastMatch := found;
      lastIndex := index + found.value.length;
      assert index + 1 < lastIndex;
      forall p | index < p < lastIndex
        ensures !SentenceEndAt(sub, p)
      {
        assert IsWhite(sub[p]);
        if IsTerminator(sub[p]) {
          TerminatorIsNotWhite(sub[p]);
        }
      }
      assert forall p :: previous <= p < index ==> !SentenceEndAt(sub, p);
      found := Exec(sub, lastIndex);
    }
    assert forall p :: lastIndex <= p ==> !SentenceEndAt(sub, p);
  }

  // ---------------------------------------------------------------------------
  // Choosing where a window ends

  /** The first position of the lookback window before a tentative cut `end` (line 47). */
  function LookbackStart(start: nat, end: nat): (from: nat)
    ensures from >= start && from >= end - Lookback
    ensures from == start || from == end - Lookback
  {
    if end - Lookback > start then end - Lookback else start
  }

  /** The natural boundaries a cut may follow, in the order they are tried. */
  datatype Boundary = SentenceEnd | ParagraphBreak | Space

  const Preference: seq<Boundary> := [SentenceEnd, ParagraphBreak, Space]

  /**
   * Where a boundary of kind `b` puts the cut inside the lookback window `sub`:
   * just after the last sentence terminator and its whitespace (lines 59-60),
   * just after the last blank line (lines 63-65) or at the last space (lines
   * 68-70). A blank line or space found at index 0 does not count.
   */
  function BoundaryIn(sub: string, b: Boundary): (k: Option<nat>)
    ensures k.Some? ==> 0 < k.value <= |sub|
  {
    match b
    case SentenceEnd =>
      (match LastSentenceStart(sub, |sub|)
       case Some(p) => Some(WhiteRunEnd(sub, p + 1))
       case None => None)
    case ParagraphBreak =>
      var paragraph := LastIndexOf(sub, "\n\n");
      if paragraph > 0 then Some(paragraph + 2) else None
    case Space =>
      var space := LastIndexOf(sub, " ");
      if space > 0 then Some(space) else None
  }

  /** The cut of the first kind in `kinds` that `sub` has. */
  function FirstBoundary(sub: string, kinds: seq<Boundary>): (k: Option<nat>)
    ensures k.Some? ==> 0 < k.value <= |sub|
    ensures k.None? <==> forall i :: 0 <= i < |kinds| ==> BoundaryIn(sub, kinds[i]).None?
    decreases |kinds|
  {
    if kinds == [] then None
    else if BoundaryIn(sub, kinds[0]).Some? then BoundaryIn(sub, kinds[0])
    else
      assert forall i :: 1 <= i < |kinds| ==> kinds[i] == kinds[1..][i - 1];
      FirstBoundary(sub, kinds[1..])
  }

  /** Lines 45-73: where a window `[start, end)` that is not the last one is cut. */
  function CutPoint(clean: string, start: nat, end: nat): (cut: nat)
    requires start < end <= |clean|
    ensures start < cut <= end && cut > end - Lookback
  {
    var searchStart := LookbackStart(start, end);
    match FirstBoundary(clean[searchStart..end], Preference)
    case Some(k) => searchStart + k
    case None => end
  }

  /** Lines 42-74: the end of the window that starts at `start`. */
  function WindowEnd(clean: string, chunkSize: int, start: nat): (end: nat)
    requires start < |clean| && chunkSize >= 1
    ensures start < end <= |clean| && end <= start + chunkSize
    ensures end == |clean| <==> start + chunkSize >= |clean|
    ensures end < |clean| ==> end > start + chunkSize - Lookback
  {
    var tentative: nat := Min(start + chunkSize, |clean|);
    if tentative < |clean| then CutPoint(clean, start, tentative) else tentative
  }

  /** Line 92: the cursor after a window `[start, end)` that is not the last. */
  function NextStart(start: nat, end: nat, overlap: int): (next: nat)
    ensures next > start && next >= end - overlap
    ensures next == start + 1 || next == end - overlap
  {
    if end - overlap > start + 1 then end - overlap else start + 1
  }

  // ---------------------------------------------------------------------------
  // The scan as functions

  /** A processed window `[start, end)` of the cleaned text. */
  datatype Span = Span(start: nat, end: nat)

  /** Every window the loop of lines 41-93 processes once its cursor is at `start`. */
  function Windows(clean: string, cfg: Config, start: nat): (ws: seq<Span>)
    requires cfg.chunkSize >= 1
    ensures start >= |clean| <==> ws == []
    ensures ws != [] ==> ws[0].start == start
    ensures forall i :: 0 <= i < |ws| ==>
      && start <= ws[i].start < ws[i].end <= |clean|
      && ws[i].end <= ws[i].start + cfg.chunkSize
    ensures forall i :: 0 <= i < |ws| - 1 ==> ws[i].end < |clean|
    ensures forall i, j :: 0 <= i && j == i + 1 && j < |ws| ==>
      ws[j].start == NextStart(ws[i].start, ws[i].end, cfg.overlap)
    ensures ws == [] || start + |ws| <= |clean|
    decreases |clean| - start
  {
    if start >= |clean| then []
    else
      var end := WindowEnd(clean, cfg.chunkSize, start);
      if end >= |clean| then [Span(start, end)]
      else [Span(start, end)] + Windows(clean, cfg, NextStart(start, end, cfg.overlap))
  }

  /** The chunk, if any, that the window `[start, end)` yields: lines 76-85. */
  function ChunkOf(clean: string, start: nat, end: nat, minChunkSize: int): (cs: seq<TextChunk>)
    requires start <= end <= |clean|
    ensures |cs| <= 1
    ensures cs != [] <==> |Trim(clean[start..end])| >= minChunkSize
    ensures cs != [] ==>
      && cs[0].startIndex == start && cs[0].endIndex == end
      && cs[0].text == Trim(clean[start..end]) && |cs[0].text| <= end - start
  {
    var text := Trim(clean[start..end]);
    if |text| >= minChunkSize then [TextChunk(text, start, end)] else []
  }

  /** The chunks the loop of lines 41-93 pushes once its cursor is at `start`. */
  function ChunksFrom(clean: string, cfg: Config, start: nat): (cs: seq<TextChunk>)
    requires cfg.chunkSize >= 1
    ensures forall i :: 0 <= i < |cs| ==>
      && start <= cs[i].startIndex < cs[i].endIndex <= |clean|
      && cfg.minChunkSize <= |cs[i].text| <= cs[i].endIndex - cs[i].startIndex
    decreases |clean| - start
  {
    if start >= |clean| then []
    else
      var end := WindowEnd(clean, cfg.chunkSize, start);
      ChunkOf(clean, start, end, cfg.minChunkSize)
        + if end >= |clean| then [] else ChunksFrom(clean, cfg, NextStart(start, end, cfg.overlap))
  }

  /** `chunkText(text, options)` as a function. */
  function Chunks(text: string, options: ChunkingOptions): (chunks: seq<TextChunk>)
    requires Resolve(options).chunkSize >= 1
    ensures IsBlank(text) ==> chunks == []
  {
    var clean := Trim(text);
    if |clean| == 0 then [] else ChunksFrom(clean, Resolve(options), 0)
  }

  // ---------------------------------------------------------------------------
  // The scan as the source writes it

  /** Lines 45-73: the boundary search for a window `[startIndex, endIndex)` that is not the last. */
  method AdjustEnd(clean: string, startIndex: nat, endIndex: nat) returns (cut: nat)
    requires startIndex < endIndex < |clean|
    ensures cut == CutPoint(clean, startIndex, endIndex)
  {
    cut := endIndex;
    var searchStart := LookbackStart(startIndex, endIndex);
    var substring := clean[searchStart..endIndex];
    assert Preference[1..][1..] == [Space];
    var lastMatch := LastSentenceMatch(substring);
    if lastMatch.Some? {
      assert LastSentenceStart(substring, |substring|) == Some(lastMatch.value.index);
      cut := searchStart + lastMatch.value.index + lastMatch.value.length;
    } else {
      assert LastSentenceStart(substring, |substring|) == None;
      var lastParagraph := LastIndexOf(substring, "\n\n");
      if lastParagraph > 0 {
        cut := searchStart + lastParagraph + 2;
      } else {
        var lastSpace := LastIndexOf(substring, " ");
        if lastSpace > 0 {
          cut := searchStart + lastSpace;
        }
      }
    }
  }

  /** Lines 42-74: the tentative end of the window at `startIndex`, cut back unless it is the last window. */
  method FindWindowEnd(clean: string, chunkSize: int, startIndex: nat) returns (endIndex: nat)
    requires startIndex < |clean| && chunkSize >= 1
    ensures endIndex == WindowEnd(clean, chunkSize, startIndex)
  {
    endIndex := Min(startIndex + chunkSize, |clean|);
    if endIndex < |clean| {
      endIndex := AdjustEnd(clean, startIndex, endIndex);
    }
  }

  /** One turn of the loop of lines 41-93, in terms of `ChunksFrom`. */
  lemma ChunksFromStep(clean: string, cfg: Config, start: nat, end: nat, before: seq<TextChunk>)
    requires cfg.chunkSize >= 1 && start < |clean| && end == WindowEnd(clean, cfg.chunkSize, start)
    ensures end >= |clean| ==> before + ChunksFrom(clean, cfg, start) == before + ChunkOf(clean, start, end, cfg.minChunkSize)
    ensures end < |clean| ==>
              before + ChunksFrom(clean, cfg, start)
              == (before + ChunkOf(clean, start, end, cfg.minChunkSize)) + ChunksFrom(clean, cfg, NextStart(start, end, cfg.overlap))
  {
    if end < |clean| {
      Assoc(before, ChunkOf(clean, start, end, cfg.minChunkSize), ChunksFrom(clean, cfg, NextStart(start, end, cfg.overlap)));
    }
  }

  /** `chunkText`, lines 22-96. */
  method ChunkText(text: string, options: ChunkingOptions) returns (chunks: seq<TextChunk>)
    requires Resolve(options).chunkSize >= 1
    ensures chunks == Chunks(text, options)
  {
    var cfg := Resolve(options);
    if |Trim(text)| == 0 {
      return [];
    }
    var clean := Trim(text);
    ghost var all := ChunksFrom(clean, cfg, 0);
    chunks := [];
    var startIndex: nat := 0;
    while startIndex < |clean|
      invariant chunks + ChunksFrom(clean, cfg, startIndex) == all
      decreases |clean| - startIndex
    {
      var endIndex := FindWindowEnd(clean, cfg.chunkSize, startIndex);
      ChunksFromStep(clean, cfg, startIndex, endIndex, chunks);
      ghost var before := chunks;
      var chunkText := Trim(clean[startIndex..endIndex]);
      if |chunkText| >= cfg.minChunkSize {
        chunks := chunks + [TextChunk(chunkText, startIndex, endIndex)];
      }
      assert chunks == before + ChunkOf(clean, startIndex, endIndex, cfg.minChunkSize);
      if endIndex >= |clean| {
        break;
      }
      startIndex := NextStart(startIndex, endIndex, cfg.overlap);
    }
  }

  // ---------------------------------------------------------------------------
  // previewChunking, lines 101-121

  /** One entry of the preview: the head of a chunk's text and its length. */
  datatype ChunkPreview = ChunkPreview(preview: string, size: nat)

  /** What `previewChunking` reports. */
  datatype PreviewReport = PreviewReport(totalChunks: nat, averageChunkSize: int, chunks: seq<ChunkPreview>)

  /** How many characters of a chunk the preview shows. */
  const PreviewLength: nat := 100

  /** Line 117: the first 100 characters, followed by `...` when the text is longer. */
  function Preview(t: string): (p: string)
    ensures |p| <= PreviewLength + 3
    ensures |t| <= PreviewLength ==> p == t
    ensures |t| > PreviewLength ==> |p| == PreviewLength + 3 && p[..PreviewLength] == t[..PreviewLength] && p[PreviewLength..] == "..."
  {
    t[..Min(|t|, PreviewLength)] + (if |t| > PreviewLength then "..." else "")
  }

  /** The total length of the texts of `cs` (the `reduce` of line 114). */
  function SumSizes(cs: seq<TextChunk>): (total: nat)
    ensures forall i :: 0 <= i < |cs| ==> |cs[i].text| <= total
    ensures total == 0 <==> forall i :: 0 <= i < |cs| ==> cs[i].text == []
  {
    if cs == [] then 0 else SumSizes(cs[..|cs| - 1]) + |cs[|cs| - 1].text|
  }

  /**
   * `Math.round(sum / n)` for a non-negative `sum` and a positive `n`: the
   * quotient rounded to the nearest integer, halves rounded up.
   */
  function RoundedMean(sum: nat, n: nat): (avg: nat)
    requires n > 0
    ensures 2 * sum - n < 2 * n * avg <= 2 * sum + n
  {
    var q := (2 * sum + n) / (2 * n);
    assert 2 * n * q + (2 * sum + n) % (2 * n) == 2 * sum + n;
    q
  }

  /** `previewChunking(text, options)`. */
  function PreviewChunking(text: string, options: ChunkingOptions): (report: PreviewReport)
    requires Resolve(options).chunkSize >= 1
    ensures var cs := Chunks(text, options);
      && report.totalChunks == |cs| == |report.chunks|
      && (cs == [] ==> report.averageChunkSize == 0)
      && (cs != [] ==> report.averageChunkSize == RoundedMean(SumSizes(cs), |cs|))
      && forall i :: 0 <= i < |cs| ==>
           report.chunks[i].size == |cs[i].text| && report.chunks[i].preview == Preview(cs[i].text)
  {
    var cs := Chunks(text, options);
    PreviewReport(
      |cs|,
      if |cs| > 0 then RoundedMean(SumSizes(cs), |cs|) else 0,
      seq(|cs|, i requires 0 <= i < |cs| => ChunkPreview(Preview(cs[i].text), |cs[i].text|)))
  }
}
