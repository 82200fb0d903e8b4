/** Text chunking for retrieval and Korean section-title handling
    (src/utils/text.py). */
module TextUtil {
  import opened Common
  import opened Normalize
  import K = CalcKeys

  // ---------------------------------------------------------------------------
  // chunk_text
  // ---------------------------------------------------------------------------

  /** str.rfind scanning down from k: the last start m <= k of pat, or -1. */
  function LastAt(w: string, pat: string, k: int): (r: int)
    requires -1 <= k <= |w| - |pat|
    ensures -1 <= r <= k
    decreases k + 1
  {
    if k < 0 then -1
    else if StartsWith(w[k..], pat) then k
    else LastAt(w, pat, k - 1)
  }

  lemma {:induction false} LastAtLast(w: string, pat: string, k: int)
    requires -1 <= k <= |w| - |pat|
    ensures LastAt(w, pat, k) >= 0 ==> StartsWith(w[LastAt(w, pat, k)..], pat)
    ensures forall m :: LastAt(w, pat, k) < m <= k ==> !StartsWith(w[m..], pat)
    decreases k + 1
  {
    if k >= 0 && !StartsWith(w[k..], pat) {
      LastAtLast(w, pat, k - 1);
    }
  }

  /** str.rfind: the highest index at which pat starts in w, or -1. */
  function RFind(w: string, pat: string): (r: int)
    requires |pat| > 0
    ensures -1 <= r < |w|
  {
    if |pat| > |w| then -1 else LastAt(w, pat, |w| - |pat|)
  }

  /** One of the four boundary hints starts at m: paragraph break, line
      break, sentence end or the Korean declarative ending "다. ". */
  predicate HintAt(w: string, m: nat)
    requires m <= |w|
  {
    StartsWith(w[m..], "\n\n") || StartsWith(w[m..], "\n")
    || StartsWith(w[m..], ". ") || StartsWith(w[m..], "다. ")
  }

  /** The same test character by character; a paragraph break starts with a
      line break, so it needs no case of its own. */
  predicate BoundaryAt(w: string, m: nat)
    requires m <= |w|
  {
    m < |w| && (w[m] == '\n'
      || (m + 1 < |w| && w[m] == '.' && w[m + 1] == ' ')
      || (m + 2 < |w| && w[m] == '다' && w[m + 1] == '.' && w[m + 2] == ' '))
  }

  lemma HintIsBoundary(w: string, m: nat)
    requires m <= |w|
    ensures HintAt(w, m) <==> BoundaryAt(w, m)
  {
    if m + 1 <= |w| { assert w[m..][..1] == [w[m]]; }
    if m + 2 <= |w| { assert w[m..][..2] == [w[m], w[m + 1]]; }
    if m + 3 <= |w| { assert w[m..][..3] == [w[m], w[m + 1], w[m + 2]]; }
  }

  /** The cut candidate of a window: the largest of the four rfind results. */
  function Cut(w: string): (r: int)
    ensures -1 <= r < |w|
  {
    Max(Max(RFind(w, "\n\n"), RFind(w, "\n")), Max(RFind(w, ". "), RFind(w, "다. ")))
  }

  /** The last position m <= k at which a boundary hint starts, or -1. */
  function LastBoundary(w: string, k: int): (r: int)
    requires -1 <= k < |w|
    ensures -1 <= r <= k
    decreases k + 1
  {
    if k < 0 then -1 else if BoundaryAt(w, k) then k else LastBoundary(w, k - 1)
  }

  lemma {:induction false} LastBoundaryLast(w: string, k: int)
    requires -1 <= k < |w|
    ensures LastBoundary(w, k) >= 0 ==> BoundaryAt(w, LastBoundary(w, k))
    ensures forall m :: LastBoundary(w, k) < m <= k ==> !BoundaryAt(w, m)
    decreases k + 1
  {
    if k >= 0 && !BoundaryAt(w, k) {
      LastBoundaryLast(w, k - 1);
    }
  }

  lemma RFindLast(w: string, pat: string)
    requires |pat| > 0
    ensures RFind(w, pat) >= 0 ==> StartsWith(w[RFind(w, pat)..], pat)
    ensures forall m :: RFind(w, pat) < m <= |w| ==> !StartsWith(w[m..], pat)
  {
    if |pat| <= |w| {
      LastAtLast(w, pat, |w| - |pat|);
    }
  }

  /** The largest of the four rfind results is the last position of the
      window at which some boundary hint starts (-1: none). */
  lemma CutIsLastBoundary(w: string)
    ensures Cut(w) == LastBoundary(w, |w| - 1)
  {
    CutHit(w);
    LastBoundaryLast(w, |w| - 1);
    CutReachesLast(w);
  }

  lemma CutReachesLast(w: string)
    ensures LastBoundary(w, |w| - 1) >= 0 ==> Cut(w) >= LastBoundary(w, |w| - 1)
  {
    var l := LastBoundary(w, |w| - 1);
    if l >= 0 {
      LastBoundaryLast(w, |w| - 1);
      CutReaches(w, l);
    }
  }

  /** A non-negative cut is a position where a hint starts. */
  lemma CutHit(w: string)
    ensures Cut(w) >= 0 ==> BoundaryAt(w, Cut(w))
  {
    RFindLast(w, "\n\n");
    RFindLast(w, "\n");
    RFindLast(w, ". ");
    RFindLast(w, "다. ");
    if Cut(w) >= 0 {
      assert HintAt(w, Cut(w));
      HintIsBoundary(w, Cut(w));
    }
  }

  /** The cut is at or after every position where a hint starts. */
  lemma CutReaches(w: string, m: nat)
    requires m <= |w| && BoundaryAt(w, m)
    ensures Cut(w) >= m
  {
    HintIsBoundary(w, m);
    if StartsWith(w[m..], "\n\n") {
      RFindLast(w, "\n\n");
    } else if StartsWith(w[m..], "\n") {
      RFindLast(w, "\n");
    } else if StartsWith(w[m..], ". ") {
      RFindLast(w, ". ");
    } else {
      RFindLast(w, "다. ");
    }
  }

  /** BoundaryAt on the window text[..hi], at an absolute position m. */
  predicate BoundaryIn(text: string, hi: nat, m: nat)
    requires hi <= |text|
  {
    m < hi && (text[m] == '\n'
      || (m + 1 < hi && text[m] == '.' && text[m + 1] == ' ')
      || (m + 2 < hi && text[m] == '다' && text[m + 1] == '.' && text[m + 2] == ' '))
  }

  /** LastBoundary of the window text[lo..hi], in absolute positions:
      the last m with lo <= m <= k at which a hint starts, or lo - 1. */
  function LastBoundaryIn(text: string, lo: nat, hi: nat, k: int): (r: int)
    requires lo <= hi <= |text| && lo - 1 <= k < hi
    ensures lo - 1 <= r <= k
    decreases k - lo + 1
  {
    if k < lo then lo - 1 else if BoundaryIn(text, hi, k) then k else LastBoundaryIn(text, lo, hi, k - 1)
  }

  lemma {:induction false} LastBoundaryInWindow(text: string, lo: nat, hi: nat, k: int)
    requires lo <= hi <= |text| && lo - 1 <= k < hi
    ensures LastBoundaryIn(text, lo, hi, k) == lo + LastBoundary(text[lo..hi], k - lo)
    decreases k - lo + 1
  {
    if k >= lo {
      var w := text[lo..hi];
      assert BoundaryIn(text, hi, k) <==> BoundaryAt(w, k - lo);
      LastBoundaryInWindow(text, lo, hi, k - 1);
    }
  }

  lemma {:induction false} LastBoundaryInLast(text: string, lo: nat, hi: nat, k: int)
    requires lo <= hi <= |text| && lo - 1 <= k < hi
    ensures LastBoundaryIn(text, lo, hi, k) >= lo ==> BoundaryIn(text, hi, LastBoundaryIn(text, lo, hi, k))
    ensures forall m: nat :: LastBoundaryIn(text, lo, hi, k) < m <= k ==> !BoundaryIn(text, hi, m)
    decreases k - lo + 1
  {
    if k >= lo && !BoundaryIn(text, hi, k) {
      LastBoundaryInLast(text, lo, hi, k - 1);
    }
  }

  /** int(chunk_size * 0.6), the position a cut must lie beyond. */
  function CutFloor(cs: int): int { (3 * cs) / 5 }

  /** Chunk parameters for which every pass of the loop moves forward. */
  predicate ChunkParams(cs: int, ov: int) {
    cs > 0 && ov < cs && ov <= CutFloor(cs) + 1
  }

  /** The window text[i..j0] the loop looks at, j0 = min(n, i + chunk_size). */
  function WindowStop(text: string, i: nat, cs: int): (j0: nat)
    requires i < |text| && cs > 0
    ensures i < j0 <= |text| && j0 - i <= cs
  {
    Min(|text|, i + cs)
  }

  /** Where the piece starting at i ends: just after the cut when the cut lies
      beyond 60% of the chunk size, else at the end of the window. */
  function WindowEnd(text: string, i: nat, cs: int): (j: nat)
    requires i < |text| && cs > 0
    ensures i < j <= |text| && j - i <= cs
    ensures j < |text| ==> j - i == cs || j - i >= CutFloor(cs) + 2
  {
    var j0 := WindowStop(text, i, cs);
    var cut := LastBoundaryIn(text, i, j0, j0 - 1);
    if cut - i > CutFloor(cs) then cut + 1 else j0
  }

  /** A window text[lo..hi] the loop cuts out. */
  datatype Span = Span(lo: nat, hi: nat)

  /** The windows cut from position i on. */
  function SpansFrom(text: string, i: nat, cs: int, ov: int): seq<Span>
    requires ChunkParams(cs, ov)
    decreases |text| - i
  {
    if i >= |text| then []
    else
      var j := WindowEnd(text, i, cs);
      [Span(i, j)] + (if j >= |text| then [] else SpansFrom(text, Max(0, j - ov), cs, ov))
  }

  /** A window lies inside the text and spans at most chunk_size characters. */
  predicate SpanFits(text: string, sp: Span, cs: int) {
    sp.lo < sp.hi <= |text| && sp.hi - sp.lo <= cs
  }

  lemma {:induction false} SpansFromFit(text: string, i: nat, cs: int, ov: int)
    requires ChunkParams(cs, ov)
    ensures forall k :: 0 <= k < |SpansFrom(text, i, cs, ov)| ==> SpanFits(text, SpansFrom(text, i, cs, ov)[k], cs)
    decreases |text| - i
  {
    if i < |text| {
      var j := WindowEnd(text, i, cs);
      if j < |text| {
        SpansFromFit(text, Max(0, j - ov), cs, ov);
      }
    }
  }

  /** text[lo:hi].strip() */
  function StripSpan(text: string, sp: Span): string {
    if sp.lo <= sp.hi <= |text| then Strip(text[sp.lo..sp.hi]) else []
  }

  /** The stripped text of each window, in order. */
  function Pieces(text: string, sps: seq<Span>): (r: seq<string>)
    ensures |r| == |sps|
  {
    if sps == [] then [] else Pieces(text, sps[..|sps| - 1]) + [StripSpan(text, sps[|sps| - 1])]
  }

  lemma PiecesSnoc(text: string, sps: seq<Span>, sp: Span)
    ensures Pieces(text, sps + [sp]) == Pieces(text, sps) + [StripSpan(text, sp)]
  {
    assert (sps + [sp])[..|sps|] == sps;
  }

  lemma {:induction false} PiecesAt(text: string, sps: seq<Span>, k: nat)
    requires k < |sps|
    ensures Pieces(text, sps)[k] == StripSpan(text, sps[k])
  {
    if k < |sps| - 1 {
      PiecesAt(text, sps[..|sps| - 1], k);
    }
  }

  /** [c for c in chunks if c] */
  function KeepNonEmpty(xs: seq<string>): (r: seq<string>)
  {
    if xs == [] then []
    else (if xs[0] == [] then [] else [xs[0]]) + KeepNonEmpty(xs[1..])
  }

  /** Exactly the non-empty elements are kept. */
  lemma {:induction false} KeepNonEmptyMembers(xs: seq<string>)
    ensures forall c :: c in KeepNonEmpty(xs) <==> c in xs && c != []
  {
    if xs != [] {
      KeepNonEmptyMembers(xs[1..]);
      assert xs == [xs[0]] + xs[1..];
    }
  }

  /** What chunk_text returns. */
  function Chunks(text: string, cs: int, ov: int): seq<string>
    requires ChunkParams(cs, ov)
  {
    var t := Strip(text);
    if t == [] then [] else KeepNonEmpty(Pieces(t, SpansFrom(t, 0, cs, ov)))
  }

  /** The cut of a window: the largest of the four rfind results. */
  method WindowCut(window: string) returns (cut: int)
    ensures cut == LastBoundary(window, |window| - 1)
  {
    cut := Max(Max(RFind(window, "\n\n"), RFind(window, "\n")),
               Max(RFind(window, ". "), RFind(window, "다. ")));
    CutIsLastBoundary(window);
  }

  /** One window of the loop: j = min(n, i + chunk_size), then the cut test. */
  method NextWindowEnd(text: string, i: nat, chunkSize: int) returns (j: nat)
    requires i < |text| && chunkSize > 0
    ensures j == WindowEnd(text, i, chunkSize)
  {
    j := Min(|text|, i + chunkSize);
    var cut := WindowCut(text[i..j]);
    LastBoundaryInWindow(text, i, j, j - 1);
    if cut > (3 * chunkSize) / 5 {
      j := i + cut + 1;
    }
  }

  lemma SpansFromStep(text: string, i: nat, cs: int, ov: int)
    requires ChunkParams(cs, ov) && i < |text|
    ensures WindowEnd(text, i, cs) >= |text| ==> SpansFrom(text, i, cs, ov) == [Span(i, WindowEnd(text, i, cs))]
    ensures WindowEnd(text, i, cs) < |text| ==>
      SpansFrom(text, i, cs, ov) == [Span(i, WindowEnd(text, i, cs))] + SpansFrom(text, Max(0, WindowEnd(text, i, cs) - ov), cs, ov)
  {
  }

  /** The windows in done, followed by those from i on, are all the windows. */
  ghost predicate Walked(text: string, done: seq<Span>, i: nat, cs: int, ov: int, all: seq<Span>)
    requires ChunkParams(cs, ov)
  {
    done + SpansFrom(text, i, cs, ov) == all
  }

  /** One more window of the walk is done. */
  lemma SpansAdvance(text: string, done: seq<Span>, i: nat, j: nat, cs: int, ov: int, all: seq<Span>)
    requires ChunkParams(cs, ov) && i < |text|
    requires Walked(text, done, i, cs, ov, all)
    requires j == WindowEnd(text, i, cs)
    ensures j >= |text| ==> done + [Span(i, j)] == all
    ensures j < |text| ==> Walked(text, done + [Span(i, j)], Max(0, j - ov), cs, ov, all)
  {
    SpansFromStep(text, i, cs, ov);
    if j < |text| {
      ConcatAssoc(done, [Span(i, j)], SpansFrom(text, Max(0, j - ov), cs, ov));
    }
  }

  lemma WalkedDone(text: string, done: seq<Span>, i: nat, cs: int, ov: int, all: seq<Span>)
    requires ChunkParams(cs, ov) && i >= |text|
    requires Walked(text, done, i, cs, ov, all)
    ensures done == all
  {
  }

  /** chunk_text: walks the stripped text window by window, cutting each
      window at its last boundary hint when that lies beyond 60% of the chunk
      size, and starts the next window `overlap` characters before the cut. */
  method ChunkText(text0: string, chunkSize: int, overlap: int) returns (chunks: seq<string>)
    requires ChunkParams(chunkSize, overlap)
    ensures chunks == Chunks(text0, chunkSize, overlap)
  {
    var text := Strip(text0);
    if text == [] {
      return [];
    }
    var raw: seq<string> := [];
    ghost var spans: seq<Span> := [];
    ghost var all := SpansFrom(text, 0, chunkSize, overlap);
    var i: nat := 0;
    var n := |text|;
    while i < n
      invariant Walked(text, spans, i, chunkSize, overlap, all)
      invariant raw == Pieces(text, spans)
      decreases n - i
    {
      var j := NextWindowEnd(text, i, chunkSize);
      SpansAdvance(text, spans, i, j, chunkSize, overlap, all);
      PiecesSnoc(text, spans, Span(i, j));
      raw := raw + [Strip(text[i..j])];
      spans := spans + [Span(i, j)];
      if j >= n {
        break;
      }
      i := Max(0, j - overlap);
    }
    if i >= n {
      WalkedDone(text, spans, i, chunkSize, overlap, all);
    }
    chunks := KeepNonEmpty(raw);
  }

  /** A slice of a slice of text is a slice of text. */
  lemma SliceCompose<T>(text: seq<T>, t: seq<T>, a0: nat, b0: nat, c: seq<T>, a1: nat, b1: nat) returns (a: nat, b: nat)
    requires a0 <= b0 <= |text| && t == text[a0..b0]
    requires a1 <= b1 <= |t| && c == t[a1..b1]
    ensures a == a0 + a1 && b == a0 + b1 && b <= b0 && c == text[a..b]
  {
    SliceOfSlice(text, a0, b0, a1, b1);
    a, b := a0 + a1, a0 + b1;
  }

  /** The stripped text of a window is a slice of the text inside it. */
  lemma StripSpanSlice(text: string, sp: Span, cs: int) returns (a: nat, b: nat)
    requires SpanFits(text, sp, cs)
    ensures sp.lo <= a <= b <= sp.hi && StripSpan(text, sp) == text[a..b]
  {
    var w := text[sp.lo..sp.hi];
    var a0, b0 := StripIsSlice(w);
    a, b := SliceCompose(text, w, sp.lo, sp.hi, StripSpan(text, sp), a0, b0);
  }

  /** Neither end of a string is whitespace. */
  predicate Trimmed(c: string) {
    c != [] && !IsSpace(c[0]) && !IsSpace(c[|c| - 1])
  }

  /** The stripped text of a window is short and, when not empty, has no
      whitespace at either end. */
  lemma StripSpanFacts(text: string, sp: Span, cs: int)
    requires SpanFits(text, sp, cs)
    ensures |StripSpan(text, sp)| <= cs
    ensures StripSpan(text, sp) == [] || Trimmed(StripSpan(text, sp))
  {
    var w := text[sp.lo..sp.hi];
    assert StripSpan(text, sp) == Strip(w);
    assert |Strip(w)| <= |w|;
  }

  /** chunk_text returns non-empty chunks of at most chunk_size characters
      with no whitespace at either end. */
  lemma ChunksShape(text: string, cs: int, ov: int)
    requires ChunkParams(cs, ov)
    ensures forall c :: c in Chunks(text, cs, ov) ==> |c| <= cs && Trimmed(c)
  {
    var t := Strip(text);
    if t != [] {
      var sps := SpansFrom(t, 0, cs, ov);
      var ps := Pieces(t, sps);
      SpansFromFit(t, 0, cs, ov);
      KeepNonEmptyMembers(ps);
      forall c | c in Chunks(text, cs, ov)
        ensures |c| <= cs && Trimmed(c)
      {
        var k :| 0 <= k < |ps| && ps[k] == c;
        PiecesAt(t, sps, k);
        StripSpanFacts(t, sps[k], cs);
      }
    }
  }

  /** Every chunk of a stripped text is the stripped text of one of its
      windows. */
  lemma ChunkSpan(t: string, cs: int, ov: int, c: string) returns (sp: Span)
    requires ChunkParams(cs, ov)
    requires c in KeepNonEmpty(Pieces(t, SpansFrom(t, 0, cs, ov)))
    ensures SpanFits(t, sp, cs) && c == StripSpan(t, sp)
  {
    var sps := SpansFrom(t, 0, cs, ov);
    var ps := Pieces(t, sps);
    SpansFromFit(t, 0, cs, ov);
    KeepNonEmptyMembers(ps);
    var k :| 0 <= k < |ps| && ps[k] == c;
    PiecesAt(t, sps, k);
    sp := sps[k];
  }

  /** Every chunk is a slice of the input text. */
  lemma ChunkIsSlice(text: string, cs: int, ov: int, c: string) returns (a: nat, b: nat)
    requires ChunkParams(cs, ov)
    requires c in Chunks(text, cs, ov)
    ensures a <= b <= |text| && c == text[a..b]
  {
    var t := Strip(text);
    var sp := ChunkSpan(t, cs, ov, c);
    var a1, b1 := StripSpanSlice(t, sp, cs);
    var a0, b0 := StripIsSlice(text);
    a, b := SliceCompose(text, t, a0, b0, c, a1, b1);
  }

  /** Empty or all-whitespace text gives no chunks. */
  lemma ChunksOfBlank(text: string, cs: int, ov: int)
    requires ChunkParams(cs, ov)
    requires forall k :: 0 <= k < |text| ==> IsSpace(text[k])
    ensures Chunks(text, cs, ov) == []
  {
    StripAllSpace(text);
  }

  /** A stripped text no longer than 60% of the chunk size (plus one) is one
      chunk. A longer text, even one within chunk_size, is cut at a boundary
      hint lying beyond that mark. */
  lemma ChunksOfShort(text: string, cs: int, ov: int)
    requires ChunkParams(cs, ov)
    requires text != [] && Strip(text) == text && |text| <= CutFloor(cs) + 1
    ensures Chunks(text, cs, ov) == [text]
  {
    var j := WindowEnd(text, 0, cs);
    assert j == |text|;
    assert text[0..j] == text;
    assert SpansFrom(text, 0, cs, ov) == [Span(0, |text|)];
    assert StripSpan(text, Span(0, |text|)) == text;
    assert Pieces(text, [Span(0, |text|)]) == [text];
    assert KeepNonEmpty([text]) == [text];
  }

  /** The cut rule: the piece ends just after the last boundary hint of the
      window when that lies beyond 60% of the chunk size ... */
  lemma WindowEndAtBoundary(text: string, i: nat, cs: int, m: nat)
    requires i < |text| && cs > 0
    requires i + CutFloor(cs) < m < WindowStop(text, i, cs)
    requires BoundaryIn(text, WindowStop(text, i, cs), m)
    requires forall m2: nat :: m < m2 < WindowStop(text, i, cs) ==> !BoundaryIn(text, WindowStop(text, i, cs), m2)
    ensures WindowEnd(text, i, cs) == m + 1
  {
    var j0 := WindowStop(text, i, cs);
    LastBoundaryInLast(text, i, j0, j0 - 1);
  }

  /** ... and at the end of the window when no hint lies beyond it. */
  lemma WindowEndNoBoundary(text: string, i: nat, cs: int)
    requires i < |text| && cs > 0
    requires forall m: nat :: i + CutFloor(cs) < m < WindowStop(text, i, cs) ==> !BoundaryIn(text, WindowStop(text, i, cs), m)
    ensures WindowEnd(text, i, cs) == WindowStop(text, i, cs)
  {
    var j0 := WindowStop(text, i, cs);
    LastBoundaryInLast(text, i, j0, j0 - 1);
  }

  // ---------------------------------------------------------------------------
  // clean_title_ko: _TITLE_PREFIX_RE = ^\s*(?:\d+(?:-\d+)*)(?:\s*[.)]\s*|\s+)
  // ---------------------------------------------------------------------------

  /** Where the number (?:-\d+)* part ends, scanning from i, just after a
      digit: digits are taken, and so is a '-' followed by a digit. */
  function NumEnd(t: string, i: nat): (e: nat)
    requires i <= |t|
    ensures i <= e <= |t|
    decreases |t| - i
  {
    if i < |t| && IsDigit(t[i]) then NumEnd(t, i + 1)
    else if i + 1 < |t| && t[i] == '-' && IsDigit(t[i + 1]) then NumEnd(t, i + 2)
    else i
  }

  /** Where the separator \s*[.)]\s* | \s+ starting at e ends, if it
      matches. A shorter number never lets the separator match: what would
      follow it is a digit or a '-', so the greedy number is the only
      candidate. */
  function SeparatorEnd(t: string, e: nat): (r: Option<nat>)
    requires e <= |t|
    ensures r.Some? ==> e < r.value <= |t|
  {
    var a := e + SpaceRun(t, e);
    if a < |t| && (t[a] == '.' || t[a] == ')') then Some(a + 1 + SpaceRun(t, a + 1))
    else if a > e then Some(a)
    else None
  }

  /** Length of the prefix the substitution removes (0 when it does not match). */
  function TitlePrefixLen(t: string): (n: nat)
    ensures n <= |t|
  {
    var ws := SpaceRun(t, 0);
    if ws < |t| && IsDigit(t[ws]) then
      match SeparatorEnd(t, NumEnd(t, ws + 1))
      case None => 0
      case Some(p) => p
    else 0
  }

  /** clean_title_ko: the space-normalised title without its leading number. */
  function CleanTitleKo(title: string): string {
    var t := NormalizeSpace(title);
    Strip(t[TitlePrefixLen(t)..])
  }

  lemma SingleSpacedSlice(t: string, a: nat, b: nat)
    requires SingleSpaced(t) && a <= b <= |t|
    ensures SingleSpaced(t[a..b])
  {
    var u := t[a..b];
    assert forall k :: 0 <= k < |u| ==> u[k] == t[a + k];
  }

  /** The cleaned title is itself space-normalised. */
  lemma CleanTitleShape(title: string)
    ensures SpaceNormal(CleanTitleKo(title))
  {
    var t := NormalizeSpace(title);
    NormalizeSpaceShape(title);
    var n := TitlePrefixLen(t);
    SingleSpacedSlice(t, n, |t|);
    var u := t[n..];
    assert u == t[n..|t|];
    var a, b := StripIsSlice(u);
    SingleSpacedSlice(u, a, b);
  }

  /** A title that does not start with a digit is only space-normalised. */
  lemma CleanTitleUnnumbered(title: string)
    requires NormalizeSpace(title) == [] || !IsDigit(NormalizeSpace(title)[0])
    ensures CleanTitleKo(title) == NormalizeSpace(title)
  {
    var t := NormalizeSpace(title);
    NormalizeSpaceShape(title);
    assert SpaceRun(t, 0) == 0;
    StripOfStripped(t);
  }

  /** A number made of digit groups joined by '-' ("3", "2-1", "4-2-7"). */
  predicate IsNumber(d: string) {
    d != [] && IsDigit(d[0]) && NumEnd(d, 1) == |d|
  }

  /** Text that starts with neither a digit nor a '-' does not extend a
      number. */
  lemma {:induction false} NumEndAppend(d: string, x: string, i: nat)
    requires i <= |d| && NumEnd(d, i) == |d|
    requires x == [] || (x[0] != '-' && !IsDigit(x[0]))
    ensures NumEnd(d + x, i) == |d|
    decreases |d| - i
  {
    var t := d + x;
    if i < |d| {
      assert t[i] == d[i];
      if i + 1 < |d| {
        assert t[i + 1] == d[i + 1];
      } else if i + 1 == |d| && x != [] {
        assert t[i + 1] == x[0];
      }
      if IsDigit(d[i]) {
        NumEndAppend(d, x, i + 1);
      } else {
        NumEndAppend(d, x, i + 2);
      }
    } else if x != [] {
      assert t[i] == x[0];
    }
  }

  /** The separator after a number: ". ", ") " or a single space. */
  lemma SeparatorAfterNumber(t: string, e: nat, sep: string)
    requires sep == ". " || sep == ") " || sep == " "
    requires e + |sep| < |t| && t[e..e + |sep|] == sep && !IsSpace(t[e + |sep|])
    requires sep == " " ==> t[e + 1] != '.' && t[e + 1] != ')'
    ensures SeparatorEnd(t, e) == Some(e + |sep|)
  {
    assert t[e] == sep[0];
    if sep == " " {
      assert SpaceRun(t, e + 1) == 0;
      assert SpaceRun(t, e) == 1;
    } else {
      assert t[e + 1] == ' ';
      assert !IsSpace(t[e]);
      assert SpaceRun(t, e + 2) == 0;
      assert SpaceRun(t, e + 1) == 1;
    }
  }

  /** The prefix of "<number><separator><rest>" is the number and the
      separator. */
  lemma PrefixOfNumbered(d: string, sep: string, rest: string)
    requires IsNumber(d)
    requires sep == ". " || sep == ") " || sep == " "
    requires rest != [] && !IsSpace(rest[0])
    requires sep == " " ==> rest[0] != '.' && rest[0] != ')'
    ensures TitlePrefixLen(d + sep + rest) == |d| + |sep|
  {
    var t := d + (sep + rest);
    ConcatAssoc(d, sep, rest);
    assert t[0] == d[0];
    assert !IsSpace(d[0]);
    assert SpaceRun(t, 0) == 0;
    NumEndAppend(d, sep + rest, 1);
    assert t[|d|..|d| + |sep|] == sep;
    assert t[|d| + |sep|] == rest[0];
    SeparatorAfterNumber(t, |d|, sep);
    assert IsDigit(t[0]);
    assert NumEnd(t, 1) == |d|;
    assert SeparatorEnd(t, |d|) == Some(|d| + |sep|);
    TitlePrefixOfParts(t, |d|, |d| + |sep|);
  }

  lemma TitlePrefixOfParts(t: string, e: nat, p: nat)
    requires t != [] && IsDigit(t[0]) && SpaceRun(t, 0) == 0
    requires e <= |t| && NumEnd(t, 1) == e && SeparatorEnd(t, e) == Some(p)
    ensures TitlePrefixLen(t) == p
  {
  }

  /** A numbered title "3. 현금흐름표", "2-1) 유동자산" or "4 자본": the
      number and its separator are removed. */
  lemma CleanTitleNumbered(d: string, sep: string, rest: string)
    requires IsNumber(d)
    requires sep == ". " || sep == ") " || sep == " "
    requires SpaceNormal(rest) && rest != []
    requires sep == " " ==> rest[0] != '.' && rest[0] != ')'
    requires SpaceNormal(d + sep + rest)
    ensures CleanTitleKo(d + sep + rest) == rest
  {
    var t := d + sep + rest;
    CollapseFixed(t);
    StripOfStripped(t);
    assert NormalizeSpace(t) == t;
    PrefixOfNumbered(d, sep, rest);
    assert t[|d| + |sep|..] == rest;
    StripOfStripped(rest);
  }

  // ---------------------------------------------------------------------------
  // _normalize_title_for_match
  // ---------------------------------------------------------------------------

  /** The characters removed before matching: space, hyphen-minus, U+2010,
      U+2013, U+2014 and parentheses. */
  const MATCH_DROPPED: seq<char> := [' ', '-', '‐', '–', '—', '(', ')']

  function RemoveChars(s: string, cs: seq<char>): (r: string)
    decreases |cs|
  {
    if cs == [] then s else RemoveChars(RemoveChar(s, cs[0]), cs[1..])
  }

  function NormalizeTitleForMatch(title: string): string {
    RemoveChars(NormalizeSpace(title), MATCH_DROPPED)
  }

  lemma {:induction false} RemoveCharKeepsAbsent(s: string, c: char, d: char)
    requires forall k :: 0 <= k < |s| ==> s[k] != d
    ensures forall k :: 0 <= k < |RemoveChar(s, c)| ==> RemoveChar(s, c)[k] != d
    decreases |s|
  {
    if s != [] {
      RemoveCharKeepsAbsent(s[1..], c, d);
      var r := RemoveChar(s, c);
      var t := RemoveChar(s[1..], c);
      assert r == (if s[0] == c then [] else [s[0]]) + t;
    }
  }

  lemma {:induction false} RemoveCharsGone(s: string, cs: seq<char>)
    ensures forall k, i :: 0 <= k < |RemoveChars(s, cs)| && 0 <= i < |cs| ==> RemoveChars(s, cs)[k] != cs[i]
    decreases |cs|
  {
    if cs != [] {
      var s1 := RemoveChar(s, cs[0]);
      RemoveCharsGone(s1, cs[1..]);
      RemoveCharGone(s, cs[0]);
      RemoveCharsKeepAbsent(s1, cs[1..], cs[0]);
      forall k, i | 0 <= k < |RemoveChars(s, cs)| && 0 <= i < |cs|
        ensures RemoveChars(s, cs)[k] != cs[i]
      {
        if i > 0 {
          assert cs[i] == cs[1..][i - 1];
        }
      }
    }
  }

  lemma {:induction false} RemoveCharsKeepAbsent(s: string, cs: seq<char>, d: char)
    requires forall k :: 0 <= k < |s| ==> s[k] != d
    ensures forall k :: 0 <= k < |RemoveChars(s, cs)| ==> RemoveChars(s, cs)[k] != d
    decreases |cs|
  {
    if cs != [] {
      RemoveCharKeepsAbsent(s, cs[0], d);
      RemoveCharsKeepAbsent(RemoveChar(s, cs[0]), cs[1..], d);
    }
  }

  lemma {:induction false} RemoveCharsFixed(s: string, cs: seq<char>)
    requires forall k, i :: 0 <= k < |s| && 0 <= i < |cs| ==> s[k] != cs[i]
    ensures RemoveChars(s, cs) == s
    decreases |cs|
  {
    if cs != [] {
      RemoveCharAbsent(s, cs[0]);
      forall k, i | 0 <= k < |s| && 0 <= i < |cs| - 1
        ensures s[k] != cs[1..][i]
      {
        assert cs[1..][i] == cs[i + 1];
      }
      RemoveCharsFixed(s, cs[1..]);
    }
  }

  /** A whitespace-free string is its own normal form. */
  lemma NoWhitespaceNormal(t: string)
    requires forall k :: 0 <= k < |t| ==> !IsSpace(t[k])
    ensures NormalizeSpace(t) == t
  {
    CollapseFixed(t);
    StripOfStripped(t);
  }

  lemma {:induction false} RemoveCharsNoSpace(s: string, cs: seq<char>)
    requires SingleSpaced(s)
    requires ' ' in cs
    ensures forall k :: 0 <= k < |RemoveChars(s, cs)| ==> !IsSpace(RemoveChars(s, cs)[k])
  {
    var r := RemoveChars(s, cs);
    RemoveCharsGone(s, cs);
    var i :| 0 <= i < |cs| && cs[i] == ' ';
    RemoveCharsSubset(s, cs);
    forall k | 0 <= k < |r|
      ensures !IsSpace(r[k])
    {
      assert r[k] != cs[i];
      assert r[k] in s;
    }
  }

  lemma {:induction false} RemoveCharSubsetOf(s: string, c: char)
    ensures forall k :: 0 <= k < |RemoveChar(s, c)| ==> RemoveChar(s, c)[k] in s
    decreases |s|
  {
    if s != [] {
      RemoveCharSubsetOf(s[1..], c);
      var t := RemoveChar(s[1..], c);
      assert RemoveChar(s, c) == (if s[0] == c then [] else [s[0]]) + t;
      assert forall x :: x in s[1..] ==> x in s;
    }
  }

  lemma {:induction false} RemoveCharsSubset(s: string, cs: seq<char>)
    ensures forall k :: 0 <= k < |RemoveChars(s, cs)| ==> RemoveChars(s, cs)[k] in s
    decreases |cs|
  {
    if cs != [] {
      RemoveCharSubsetOf(s, cs[0]);
      RemoveCharsSubset(RemoveChar(s, cs[0]), cs[1..]);
    }
  }

  /** The match form holds no whitespace and none of the dropped characters,
      and normalising it again changes nothing. */
  lemma NormalizeTitleForMatchShape(title: string)
    ensures forall k, i :: 0 <= k < |NormalizeTitleForMatch(title)| && 0 <= i < |MATCH_DROPPED| ==>
      NormalizeTitleForMatch(title)[k] != MATCH_DROPPED[i]
    ensures forall k :: 0 <= k < |NormalizeTitleForMatch(title)| ==> !IsSpace(NormalizeTitleForMatch(title)[k])
    ensures NormalizeTitleForMatch(NormalizeTitleForMatch(title)) == NormalizeTitleForMatch(title)
  {
    var t := NormalizeTitleForMatch(title);
    NormalizeSpaceShape(title);
    RemoveCharsGone(NormalizeSpace(title), MATCH_DROPPED);
    assert MATCH_DROPPED[0] == ' ';
    RemoveCharsNoSpace(NormalizeSpace(title), MATCH_DROPPED);
    NoWhitespaceNormal(t);
    RemoveCharsFixed(t, MATCH_DROPPED);
  }

  // ---------------------------------------------------------------------------
  // detect_statement_type_from_title
  // ---------------------------------------------------------------------------

  /** The keyword tests, in order, on the match form of a title. */
  function ClassifyMatchForm(t: string): K.StatementType {
    if Contains(t, "현금흐름표") then K.CF
    else if Contains(t, "자본변동표") || Contains(t, "자본변동") then K.CE
    else if Contains(t, "포괄손익계산서") || Contains(t, "포괄손익") || Contains(t, "손익계산서") then K.IS_CIS
    else if Contains(t, "재무상태표") || Contains(t, "대차대조표") then K.BS
    else K.FS
  }

  /** detect_statement_type_from_title */
  function DetectStatementType(title: string): K.StatementType {
    if title == [] then K.FS else ClassifyMatchForm(NormalizeTitleForMatch(title))
  }

  lemma {:induction false} ContainsPrefix(s: string, p: string, q: string)
    requires Contains(s, p + q)
    ensures Contains(s, p)
    decreases |s|
  {
    if StartsWith(s, p + q) {
      assert s[..|p|] == (p + q)[..|p|] == p;
    } else {
      ContainsPrefix(s[1..], p, q);
    }
  }

  /** The longer keywords are redundant: a match form is classified by the
      shortest keyword of each statement kind, tested in the order CF, CE,
      IS_CIS, BS; anything else is FS. */
  lemma ClassifyByShortestKeyword(t: string)
    ensures ClassifyMatchForm(t) ==
      if Contains(t, "현금흐름표") then K.CF
      else if Contains(t, "자본변동") then K.CE
      else if Contains(t, "포괄손익") || Contains(t, "손익계산서") then K.IS_CIS
      else if Contains(t, "재무상태표") || Contains(t, "대차대조표") then K.BS
      else K.FS
  {
    if Contains(t, "자본변동표") {
      assert "자본변동표" == "자본변동" + "표";
      ContainsPrefix(t, "자본변동", "표");
    }
    if Contains(t, "포괄손익계산서") {
      assert "포괄손익계산서" == "포괄손익" + "계산서";
      ContainsPrefix(t, "포괄손익", "계산서");
    }
  }

  /** No keyword occurs in the empty string. */
  lemma ClassifyEmpty()
    ensures ClassifyMatchForm([]) == K.FS
  {
  }

  /** Classifying the match form of a title again gives the same kind. */
  lemma DetectStatementTypeOfMatchForm(title: string)
    ensures DetectStatementType(NormalizeTitleForMatch(title)) == DetectStatementType(title)
  {
    var u := NormalizeTitleForMatch(title);
    NormalizeTitleForMatchShape(title);
    if u == [] {
      ClassifyEmpty();
    } else {
      assert title != [] by {
        if title == [] {
          assert NormalizeSpace(title) == [];
          RemoveCharsFixed([], MATCH_DROPPED);
        }
      }
    }
  }

}
