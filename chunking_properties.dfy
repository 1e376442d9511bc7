/**
 * What `chunkText` promises: which windows become chunks, the shape and order
 * of the chunks, where a window is cut, how far the scan reaches and how many
 * windows it takes.
 */
module ChunkingProperties {
  import opened Text
  import opened Chunking

  // ---------------------------------------------------------------------------
  // Chunks and windows

  /** `c` is the chunk that one of the windows `ws` yields. */
  predicate KeptWindow(clean: string, ws: seq<Span>, minChunkSize: int, c: TextChunk) {
    && Span(c.startIndex, c.endIndex) in ws
    && c.startIndex <= c.endIndex <= |clean|
    && c.text == Trim(clean[c.startIndex..c.endIndex])
    && |c.text| >= minChunkSize
  }

  /**
   * A chunk is emitted exactly for each processed window whose trimmed text has
   * at least `minChunkSize` characters, and it carries that trimmed text.
   */
  lemma {:induction false} ChunksAreKeptWindows(clean: string, cfg: Config, start: nat)
    requires cfg.chunkSize >= 1
    ensures forall c :: c in ChunksFrom(clean, cfg, start) <==> KeptWindow(clean, Windows(clean, cfg, start), cfg.minChunkSize, c)
    ensures |ChunksFrom(clean, cfg, start)| <= |Windows(clean, cfg, start)|
    decreases |clean| - start
  {
    if start < |clean| {
      var end := WindowEnd(clean, cfg.chunkSize, start);
      var next := NextStart(start, end, cfg.overlap);
      var ws := Windows(clean, cfg, start);
      var head := ChunkOf(clean, start, end, cfg.minChunkSize);
      if end < |clean| {
        ChunksAreKeptWindows(clean, cfg, next);
        var rest := Windows(clean, cfg, next);
        assert ws == [Span(start, end)] + rest;
        assert ChunksFrom(clean, cfg, start) == head + ChunksFrom(clean, cfg, next);
        forall c
          ensures c in ChunksFrom(clean, cfg, start) <==> KeptWindow(clean, ws, cfg.minChunkSize, c)
        {
          assert Span(c.startIndex, c.endIndex) in ws <==>
            Span(c.startIndex, c.endIndex) == Span(start, end) || Span(c.startIndex, c.endIndex) in rest;
        }
      } else {
        assert ws == [Span(start, end)];
        assert ChunksFrom(clean, cfg, start) == head;
      }
    }
  }

  /** Every chunk of `cs` starts at or after `lo`. */
  predicate StartsFrom(cs: seq<TextChunk>, lo: int) {
    forall i :: 0 <= i < |cs| ==> lo <= cs[i].startIndex
  }

  /**
   * `cs` has strictly increasing `startIndex`, and every later chunk starts at
   * or after an earlier chunk's `endIndex - overlap`.
   */
  predicate Ordered(cs: seq<TextChunk>, overlap: int) {
    forall i, j :: 0 <= i < j < |cs| ==>
      cs[i].startIndex < cs[j].startIndex && cs[j].startIndex >= cs[i].endIndex - overlap
  }

  /** Putting a chunk of the window `[start, end)` before chunks that start at `next` keeps them ordered. */
  lemma OrderedCons(head: seq<TextChunk>, rest: seq<TextChunk>, start: int, end: int, next: int, overlap: int)
    requires head == [] || (|head| == 1 && head[0].startIndex == start && head[0].endIndex == end)
    requires start < next && end - overlap <= next
    requires StartsFrom(rest, next) && Ordered(rest, overlap)
    ensures StartsFrom(head + rest, start) && Ordered(head + rest, overlap)
  {
    var cs := head + rest;
    forall i | 0 <= i < |cs|
      ensures start <= cs[i].startIndex
    {
      if i >= |head| {
        assert cs[i] == rest[i - |head|];
      }
    }
    forall i, j | 0 <= i < j < |cs|
      ensures cs[i].startIndex < cs[j].startIndex && cs[j].startIndex >= cs[i].endIndex - overlap
    {
      assert cs[j] == rest[j - |head|];
      if i >= |head| {
        assert cs[i] == rest[i - |head|];
      }
    }
  }

  /** The chunks of the scan from `start` on are ordered and start at or after `start`. */
  lemma {:induction false} ChunksOrdered(clean: string, cfg: Config, start: nat)
    requires cfg.chunkSize >= 1
    ensures StartsFrom(ChunksFrom(clean, cfg, start), start)
    ensures Ordered(ChunksFrom(clean, cfg, start), cfg.overlap)
    decreases |clean| - start
  {
    if start < |clean| {
      var end := WindowEnd(clean, cfg.chunkSize, start);
      var next := NextStart(start, end, cfg.overlap);
      var head := ChunkOf(clean, start, end, cfg.minChunkSize);
      if end < |clean| {
        ChunksOrdered(clean, cfg, next);
        OrderedCons(head, ChunksFrom(clean, cfg, next), start, end, next, cfg.overlap);
      } else {
        OrderedCons(head, [], start, end, next, cfg.overlap);
        assert ChunksFrom(clean, cfg, start) == head + [];
      }
    }
  }

  /**
   * Every chunk of `chunkText(text, options)` lies inside the trimmed text, is
   * at most `chunkSize` long, carries the trimmed text of its window and has at
   * least `minChunkSize` characters; the chunks are ordered by `startIndex`,
   * each one starting at or after an earlier one's `endIndex - overlap`.
   */
  lemma ChunkShape(text: string, options: ChunkingOptions)
    requires Resolve(options).chunkSize >= 1
    ensures var clean := Trim(text);
      var cfg := Resolve(options);
      var cs := Chunks(text, options);
      && (forall c :: c in cs ==>
            && 0 <= c.startIndex < c.endIndex <= |clean|
            && c.endIndex <= c.startIndex + cfg.chunkSize
            && c.text == Trim(clean[c.startIndex..c.endIndex])
            && cfg.minChunkSize <= |c.text| <= cfg.chunkSize)
      && Ordered(cs, cfg.overlap)
  {
    var clean := Trim(text);
    var cfg := Resolve(options);
    if |clean| > 0 {
      ChunksAreKeptWindows(clean, cfg, 0);
      ChunksOrdered(clean, cfg, 0);
    }
  }

  // ---------------------------------------------------------------------------
  // How far the scan reaches

  /** Some window of `ws` contains position `p`. */
  predicate Covered(ws: seq<Span>, p: int) {
    exists i :: 0 <= i < |ws| && ws[i].start <= p < ws[i].end
  }

  /**
   * With a non-negative overlap, the next window never starts after the end of
   * the previous one, the windows together cover every position of the cleaned
   * text from `start` on, and the last window ends at the end of the text.
   */
  lemma {:induction false} WindowsCover(clean: string, cfg: Config, start: nat)
    requires cfg.chunkSize >= 1 && cfg.overlap >= 0 && start < |clean|
    ensures var ws := Windows(clean, cfg, start);
      && ws[|ws| - 1].end == |clean|
      && (forall i, j :: 0 <= i && j == i + 1 && j < |ws| ==> ws[j].start <= ws[i].end)
      && forall p :: start <= p < |clean| ==> Covered(ws, p)
    decreases |clean| - start
  {
    WindowsLinked(clean, cfg, start);
    LastWindowEnds(clean, cfg, start);
    WindowsCoverFrom(clean, cfg, start);
  }

  /** With a non-negative overlap, each window starts no later than the previous one ends. */
  lemma WindowsLinked(clean: string, cfg: Config, start: nat)
    requires cfg.chunkSize >= 1 && cfg.overlap >= 0
    ensures var ws := Windows(clean, cfg, start);
      forall i, j :: 0 <= i && j == i + 1 && j < |ws| ==> ws[j].start <= ws[i].end
  {
    var ws := Windows(clean, cfg, start);
    forall i, j | 0 <= i && j == i + 1 && j < |ws|
      ensures ws[j].start <= ws[i].end
    {
      assert ws[j].start == NextStart(ws[i].start, ws[i].end, cfg.overlap);
    }
  }

  /** The last window ends at the end of the text. */
  lemma {:induction false} LastWindowEnds(clean: string, cfg: Config, start: nat)
    requires cfg.chunkSize >= 1 && cfg.overlap >= 0 && start < |clean|
    ensures var ws := Windows(clean, cfg, start);
      ws[|ws| - 1].end == |clean|
    decreases |clean| - start
  {
    var ws := Windows(clean, cfg, start);
    var end := WindowEnd(clean, cfg.chunkSize, start);
    if end < |clean| {
      var next := NextStart(start, end, cfg.overlap);
      var rest := Windows(clean, cfg, next);
      assert ws == [Span(start, end)] + rest;
      assert next <= end;
      LastWindowEnds(clean, cfg, next);
      assert ws[|ws| - 1] == rest[|rest| - 1];
    } else {
      assert ws == [Span(start, end)];
    }
  }

  /** With a non-negative overlap, every position from `start` on lies in some window. */
  lemma {:induction false} WindowsCoverFrom(clean: string, cfg: Config, start: nat)
    requires cfg.chunkSize >= 1 && cfg.overlap >= 0
    ensures forall p :: start <= p < |clean| ==> Covered(Windows(clean, cfg, start), p)
    decreases |clean| - start
  {
    var ws := Windows(clean, cfg, start);
    if start < |clean| {
      var end := WindowEnd(clean, cfg.chunkSize, start);
      var next := NextStart(start, end, cfg.overlap);
      var rest := Windows(clean, cfg, next);
      assert next <= end;
      if end < |clean| {
        assert ws == [Span(start, end)] + rest;
        assert forall q :: next <= q < |clean| ==> Covered(rest, q) by {
          WindowsCoverFrom(clean, cfg, next);
        }
        forall p | start <= p < |clean|
          ensures Covered(ws, p)
        {
          if p < end {
            assert ws[0].start <= p < ws[0].end;
          } else {
            assert next <= p;
            CoveredCons(Span(start, end), rest, p);
          }
        }
      } else {
        assert ws == [Span(start, end)];
        forall p | start <= p < |clean|
          ensures Covered(ws, p)
        {
          assert ws[0].start <= p < ws[0].end;
        }
      }
    }
  }

  lemma CoveredCons(first: Span, rest: seq<Span>, p: int)
    requires Covered(rest, p)
    ensures Covered([first] + rest, p)
  {
    var ws := [first] + rest;
    var i :| 0 <= i < |rest| && rest[i].start <= p < rest[i].end;
    assert ws[i + 1] == rest[i];
  }

  /** The distance covered by `n` steps of length `step`. */
  function Distance(n: nat, step: int): (d: int)
    ensures d == n * step
  {
    if n == 0 then 0 else Distance(n - 1, step) + step
  }

  /**
   * A window that is not the last one is cut back by less than 200 characters
   * from `start + chunkSize`, so the cursor moves by more than
   * `chunkSize - overlap - 200`.
   */
  lemma NonLastAdvance(clean: string, cfg: Config, start: nat)
    requires cfg.chunkSize >= 1 && start < |clean|
    requires WindowEnd(clean, cfg.chunkSize, start) < |clean|
    ensures NextStart(start, WindowEnd(clean, cfg.chunkSize, start), cfg.overlap) - start
            > cfg.chunkSize - cfg.overlap - Lookback
  {
  }

  /**
   * With `chunkSize > overlap + 199`, every window but the last moves the cursor
   * forward by at least `chunkSize - overlap - 199`, so the number of windows is
   * bounded by the length of the text divided by that step.
   */
  lemma {:induction false} WindowCount(clean: string, cfg: Config, start: nat)
    requires cfg.chunkSize >= 1 && cfg.chunkSize - cfg.overlap - Lookback >= 0
    ensures Windows(clean, cfg, start) == []
      || start + Distance(|Windows(clean, cfg, start)| - 1, cfg.chunkSize - cfg.overlap - Lookback + 1) < |clean|
    decreases |clean| - start
  {
    if start < |clean| {
      var end := WindowEnd(clean, cfg.chunkSize, start);
      if end < |clean| {
        NonLastAdvance(clean, cfg, start);
        WindowCount(clean, cfg, NextStart(start, end, cfg.overlap));
      }
    }
  }

  // ---------------------------------------------------------------------------
  // Where a window that is not the last one is cut
  //
  // Each lemma looks at the lookback window `sub == clean[lo..end]` with
  // `lo == LookbackStart(start, end)` (lines 47-48) and says at which offset
  // of `sub` the cut falls.

  /**
   * Lines 59-60: when the lookback window holds a terminator followed by
   * whitespace, the cut falls just after the whitespace run that follows the
   * last such terminator (the run is clipped at the tentative end).
   */
  lemma CutAtSentenceEnd(clean: string, start: nat, end: nat, q: nat)
    requires start < end <= |clean|
    requires SentenceEndAt(clean[LookbackStart(start, end)..end], q)
    ensures var lo := LookbackStart(start, end);
      var sub := clean[lo..end];
      var k := CutPoint(clean, start, end) - lo;
      exists p ::
        && q <= p && p + 1 < k <= |sub|
        && SentenceEndAt(sub, p)
        && (forall r :: p < r ==> !SentenceEndAt(sub, r))
        && (forall r :: p < r < k ==> IsWhite(sub[r]))
        && (k == |sub| || !IsWhite(sub[k]))
  {
    var lo := LookbackStart(start, end);
    var sub := clean[lo..end];
    var last := LastSentenceStart(sub, |sub|);
    assert last.Some? && q <= last.value;
    var p := last.value;
    var k := WhiteRunEnd(sub, p + 1);
    assert CutPoint(clean, start, end) - lo == k by {
      assert FirstBoundary(sub, Preference) == BoundaryIn(sub, SentenceEnd);
    }
    assert forall r :: p < r ==> !SentenceEndAt(sub, r);
    assert p + 1 < k by {
      assert SentenceEndAt(sub, p);
    }
  }

  /**
   * Lines 63-65: with no sentence end in the lookback window, the cut falls
   * just after the last blank line, provided that blank line does not start
   * the lookback window.
   */
  lemma CutAtBlankLine(clean: string, start: nat, end: nat, q: nat)
    requires start < end <= |clean|
    requires forall r :: !SentenceEndAt(clean[LookbackStart(start, end)..end], r)
    requires 0 < q && OccursAt(clean[LookbackStart(start, end)..end], "\n\n", q)
    ensures var lo := LookbackStart(start, end);
      var sub := clean[lo..end];
      var k := CutPoint(clean, start, end) - lo;
      && q + 2 <= k
      && OccursAt(sub, "\n\n", k - 2)
      && forall r :: k - 2 < r ==> !OccursAt(sub, "\n\n", r)
  {
    var lo := LookbackStart(start, end);
    var sub := clean[lo..end];
    assert LastSentenceStart(sub, |sub|).None?;
    assert FirstBoundary(sub, Preference) == FirstBoundary(sub, Preference[1..]);
    assert FirstBoundary(sub, Preference) == BoundaryIn(sub, ParagraphBreak);
  }

  /**
   * Lines 68-70: with neither a sentence end nor a blank line past the first
   * position of the lookback window, the cut falls at the last space, provided
   * that space is not the first character of the lookback window.
   */
  lemma CutAtSpace(clean: string, start: nat, end: nat, q: nat)
    requires start < end <= |clean|
    requires forall r :: !SentenceEndAt(clean[LookbackStart(start, end)..end], r)
    requires forall r :: 0 < r ==> !OccursAt(clean[LookbackStart(start, end)..end], "\n\n", r)
    requires 0 < q && OccursAt(clean[LookbackStart(start, end)..end], " ", q)
    ensures var lo := LookbackStart(start, end);
      var sub := clean[lo..end];
      var k := CutPoint(clean, start, end) - lo;
      && q <= k
      && OccursAt(sub, " ", k)
      && forall r :: k < r ==> !OccursAt(sub, " ", r)
  {
    var lo := LookbackStart(start, end);
    var sub := clean[lo..end];
    assert LastSentenceStart(sub, |sub|).None?;
    assert BoundaryIn(sub, ParagraphBreak).None?;
    assert Preference[1..][1..] == [Space];
    assert FirstBoundary(sub, Preference) == BoundaryIn(sub, Space);
  }

  /**
   * Line 42 left unchanged by lines 45-73: with no sentence end, no blank line
   * and no space past the first position of the lookback window, the window
   * keeps its tentative end.
   */
  lemma CutAtTentativeEnd(clean: string, start: nat, end: nat)
    requires start < end <= |clean|
    requires forall r :: !SentenceEndAt(clean[LookbackStart(start, end)..end], r)
    requires forall r :: 0 < r ==> !OccursAt(clean[LookbackStart(start, end)..end], "\n\n", r)
    requires forall r :: 0 < r ==> !OccursAt(clean[LookbackStart(start, end)..end], " ", r)
    ensures CutPoint(clean, start, end) == end
  {
    var lo := LookbackStart(start, end);
    var sub := clean[lo..end];
    assert LastSentenceStart(sub, |sub|).None?;
    assert BoundaryIn(sub, ParagraphBreak).None?;
    assert BoundaryIn(sub, Space).None?;
    assert Preference[1..][1..] == [Space];
    assert FirstBoundary(sub, Preference).None?;
  }

  // ---------------------------------------------------------------------------
  // previewChunking

  /** When every text of `cs` has between `lo` and `hi` characters, so does their mean. */
  lemma {:induction false} SumSizesBounds(cs: seq<TextChunk>, lo: int, hi: int)
    requires forall i :: 0 <= i < |cs| ==> lo <= |cs[i].text| <= hi
    ensures |cs| * lo <= SumSizes(cs) <= |cs| * hi
  {
    if cs != [] {
      var init := cs[..|cs| - 1];
      var last := |cs[|cs| - 1].text|;
      assert SumSizes(cs) == SumSizes(init) + last;
      assert lo <= last <= hi;
      assert |init| * lo <= SumSizes(init) <= |init| * hi by {
        assert forall i :: 0 <= i < |init| ==> init[i] == cs[i];
        SumSizesBounds(init, lo, hi);
      }
      BoundsStep(|init|, SumSizes(init), last, lo, hi);
    }
  }

  /** Adding one value between `lo` and `hi` to a sum of `n` such values. */
  lemma BoundsStep(n: nat, sum: int, x: int, lo: int, hi: int)
    requires n * lo <= sum <= n * hi && lo <= x <= hi
    ensures (n + 1) * lo <= sum + x <= (n + 1) * hi
  {
    assert (n + 1) * lo == n * lo + lo && (n + 1) * hi == n * hi + hi;
  }

  /** The rounded mean of integers between `lo` and `hi` lies between them too. */
  lemma RoundedMeanBounds(sum: nat, n: nat, lo: int, hi: int)
    requires n > 0 && n * lo <= sum <= n * hi
    ensures lo <= RoundedMean(sum, n) <= hi
  {
    var avg := RoundedMean(sum, n);
    assert 2 * n * (lo - 1) < 2 * n * avg;
    CancelFactor(2 * n, lo - 1, avg);
    assert 2 * n * avg < 2 * n * (hi + 1);
    CancelFactor(2 * n, avg, hi + 1);
  }

  lemma CancelFactor(k: int, a: int, b: int)
    requires k > 0 && k * a < k * b
    ensures a < b
  {
  }

  /**
   * Lines 111-119: the report counts the chunks, averages 0 characters when
   * there are none and otherwise between `minChunkSize` and `chunkSize`; each
   * preview has at most 103 characters and each size is that chunk's length.
   */
  lemma PreviewBounds(text: string, options: ChunkingOptions)
    requires Resolve(options).chunkSize >= 1
    ensures var report := PreviewChunking(text, options);
      var cfg := Resolve(options);
      && report.totalChunks == |Chunks(text, options)|
      && (report.totalChunks == 0 ==> report.averageChunkSize == 0)
      && (report.totalChunks > 0 ==> cfg.minChunkSize <= report.averageChunkSize <= cfg.chunkSize)
      && forall i :: 0 <= i < |report.chunks| ==>
           && |report.chunks[i].preview| <= PreviewLength + 3
           && cfg.minChunkSize <= report.chunks[i].size <= cfg.chunkSize
  {
    var cs := Chunks(text, options);
    var cfg := Resolve(options);
    assert forall i :: 0 <= i < |cs| ==> cfg.minChunkSize <= |cs[i].text| <= cfg.chunkSize by {
      ChunkShape(text, options);
      assert forall i :: 0 <= i < |cs| ==> cs[i] in cs;
    }
    if cs != [] {
      assert cfg.minChunkSize <= RoundedMean(SumSizes(cs), |cs|) <= cfg.chunkSize by {
        SumSizesBounds(cs, cfg.minChunkSize, cfg.chunkSize);
        RoundedMeanBounds(SumSizes(cs), |cs|, cfg.minChunkSize, cfg.chunkSize);
      }
    }
  }
}
