/**
 * The windowed chunker of `VectorStore.chunk_text` (src/vector_store.py),
 * as specification functions over window positions, with the facts the
 * retrieval core relies on: windows start at 0, advance strictly, cover the
 * whole text, and every emitted chunk is a non-empty, stripped, contiguous
 * piece of the text no longer than the chunk size.
 */
module Chunking {
  import opened Text

  /** `CHUNK_SIZE` and `CHUNK_OVERLAP` defaults of config/config.py. */
  const DefaultChunkSize: nat := 1000
  const DefaultOverlap: nat := 200

  /** How far back from a window end the chunker looks for a sentence ending. */
  const LookBack: nat := 100

  const SentenceEndings: seq<string> := [". ", "! ", "? ", "\n\n"]

  /** A sentence ending (two characters) starts at offset `i` of `text`. */
  predicate IsBoundaryAt(text: string, i: int) {
    && 0 <= i && i + 2 <= |text|
    && (|| (text[i] in ".!?" && text[i + 1] == ' ')
        || (text[i] == '\n' && text[i + 1] == '\n'))
  }

  /** `IsBoundaryAt` is the comparison `text[i:i+2] == ending` against each of the four endings. */
  lemma BoundaryIsEnding(text: string, i: int)
    requires 0 <= i && i + 2 <= |text|
    ensures IsBoundaryAt(text, i) <==> text[i..i + 2] in SentenceEndings
  {
    var t := text[i..i + 2];
    assert t == [text[i], text[i + 1]];
  }

  /** Every sentence ending finishes with a whitespace character. */
  lemma BoundaryEndsInSpace(text: string, i: int)
    requires IsBoundaryAt(text, i)
    ensures IsSpace(text[i + 1])
  {
  }

  /**
   * The chunk size and overlap for which the loop of `chunk_text` is known
   * to advance: a window end moves back at most `LookBack - 2` characters,
   * so the next start `end - overlap` is beyond the current one.
   */
  predicate ValidConfig(size: int, overlap: int) {
    0 <= overlap && overlap + (LookBack - 2) < size
  }

  /**
   * The break the scan over `[lo, hi)` settles on: just after the LAST
   * sentence ending that starts in the range, or `dflt` when there is none.
   */
  function LastBreak(text: string, lo: nat, hi: int, dflt: int): (r: int)
    ensures (r == dflt && forall i :: lo <= i < hi ==> !IsBoundaryAt(text, i))
         || (lo <= r - 2 < hi && IsBoundaryAt(text, r - 2)
             && forall i :: r - 2 < i < hi ==> !IsBoundaryAt(text, i))
    decreases hi - lo
  {
    if hi <= lo then dflt
    else if IsBoundaryAt(text, hi - 1) then hi + 1
    else LastBreak(text, lo, hi - 1, dflt)
  }

  function Max(a: int, b: int): int { if a < b then b else a }
  function Min(a: int, b: int): int { if a < b then a else b }

  /**
   * The end of the window that starts at `start`: `start + size`, unless
   * that is inside the text, in which case it moves to just after the last
   * sentence ending that starts within the `LookBack` characters before it.
   */
  function WindowEnd(text: string, start: nat, size: nat): (end: nat)
    ensures start + size - (LookBack - 2) <= end <= start + size + 1
    ensures end == start + size || (end <= |text| && IsBoundaryAt(text, end - 2))
    ensures end == start + size + 1 ==> end <= |text| && IsSpace(text[end - 1])
  {
    var e := start + size;
    if e < |text| then
      var r := LastBreak(text, Max(0, e - LookBack), e, e);
      if r == e then r
      else
        BoundaryEndsInSpace(text, r - 2);
        r
    else e
  }

  /** One window `[start, end)` of the scan; `end` may lie past the text. */
  datatype Window = Window(start: nat, end: nat)

  /** The windows the loop visits from `start` on, until a start reaches the text's end. */
  function WindowsFrom(text: string, size: nat, overlap: nat, start: nat): seq<Window>
    requires ValidConfig(size, overlap)
    decreases |text| - start
  {
    if start >= |text| then []
    else
      var end := WindowEnd(text, start, size);
      [Window(start, end)] + WindowsFrom(text, size, overlap, end - overlap)
  }

  /** The first index in `[lo, hi)` whose character is not whitespace, or `hi`. */
  function SkipSpace(text: string, lo: nat, hi: nat): (a: nat)
    requires lo <= hi <= |text|
    ensures lo <= a <= hi
    ensures forall i :: lo <= i < a ==> IsSpace(text[i])
    ensures a < hi ==> !IsSpace(text[a])
    decreases hi - lo
  {
    if lo < hi && IsSpace(text[lo]) then SkipSpace(text, lo + 1, hi) else lo
  }

  /** The index just past the last character in `[lo, hi)` that is not whitespace, or `lo`. */
  function TrimSpace(text: string, lo: nat, hi: nat): (b: nat)
    requires lo <= hi <= |text|
    ensures lo <= b <= hi
    ensures forall i :: b <= i < hi ==> IsSpace(text[i])
    ensures b > lo ==> !IsSpace(text[b - 1])
    decreases hi - lo
  {
    if lo < hi && IsSpace(text[hi - 1]) then TrimSpace(text, lo, hi - 1) else hi
  }

  /**
   * `text[w.start:w.end].strip()`, with Python's slice clamping (an end past
   * the text stops at the text's end, an empty range gives ""), computed on
   * positions of `text`; `PieceIsStrip` shows it is `Strip` of the slice.
   */
  function Piece(text: string, w: Window): string {
    if w.start < w.end && w.start < |text| then
      var hi := Min(w.end, |text|);
      var a := SkipSpace(text, w.start, hi);
      text[a..TrimSpace(text, a, hi)]
    else ""
  }

  /** The piece of a window is the stripped slice of the text it covers. */
  lemma PieceIsStrip(text: string, w: Window)
    ensures Piece(text, w) == if w.start < w.end && w.start < |text| then Strip(text[w.start..Min(w.end, |text|)]) else ""
  {
    if w.start < w.end && w.start < |text| {
      var hi := Min(w.end, |text|);
      var a := SkipSpace(text, w.start, hi);
      StripSlice(text, w.start, hi, a, TrimSpace(text, a, hi));
    }
  }

  /** The non-empty pieces of the windows, in order. */
  function ChunksOf(text: string, ws: seq<Window>): seq<string> {
    if ws == [] then []
    else
      var c := Piece(text, ws[0]);
      (if c != [] then [c] else []) + ChunksOf(text, ws[1..])
  }

  /** `chunk_text(text, size, overlap)` */
  function Chunks(text: string, size: nat, overlap: nat): seq<string>
    requires ValidConfig(size, overlap)
  {
    if |text| <= size then [text] else ChunksOf(text, WindowsFrom(text, size, overlap, 0))
  }

  /** Window `w` is one the scan can produce: it starts inside the text and its end obeys `WindowEnd`. */
  predicate Fits(text: string, size: nat, w: Window) {
    && w.start < |text| && w.start < w.end
    && w.start + size - (LookBack - 2) <= w.end <= w.start + size + 1
    && (w.end == w.start + size + 1 ==> w.end <= |text| && IsSpace(text[w.end - 1]))
  }

  /** The first window of the scan from `start`, followed by the scan from `end - overlap`. */
  lemma WindowsUnfold(text: string, size: nat, overlap: nat, start: nat)
    requires ValidConfig(size, overlap) && start < |text|
    ensures var end := WindowEnd(text, start, size);
      && end - overlap > start
      && WindowsFrom(text, size, overlap, start)
         == [Window(start, end)] + WindowsFrom(text, size, overlap, end - overlap)
  {
  }

  /** `WindowsUnfold` for a window end already computed. */
  lemma WindowsStep(text: string, size: nat, overlap: nat, start: nat, end: nat)
    requires ValidConfig(size, overlap) && start < |text| && end == WindowEnd(text, start, size)
    ensures end - overlap > start
    ensures WindowsFrom(text, size, overlap, start) == [Window(start, end)] + WindowsFrom(text, size, overlap, end - overlap)
  {
    WindowsUnfold(text, size, overlap, start);
  }

  /** Every window of `ws` fits and starts at or after `start`. */
  predicate AllFit(text: string, size: nat, start: nat, ws: seq<Window>) {
    forall j :: 0 <= j < |ws| ==> Fits(text, size, ws[j]) && start <= ws[j].start
  }

  /** Every window of the scan from `start` fits and starts at or after `start`. */
  lemma {:induction false} WindowsFit(text: string, size: nat, overlap: nat, start: nat)
    requires ValidConfig(size, overlap)
    ensures AllFit(text, size, start, WindowsFrom(text, size, overlap, start))
    decreases |text| - start
  {
    if start < |text| {
      WindowsUnfold(text, size, overlap, start);
      var end := WindowEnd(text, start, size);
      WindowsFit(text, size, overlap, end - overlap);
      var rest := WindowsFrom(text, size, overlap, end - overlap);
      var ws := [Window(start, end)] + rest;
      forall j | 0 <= j < |ws|
        ensures Fits(text, size, ws[j]) && start <= ws[j].start
      {
        if j > 0 { assert ws[j] == rest[j - 1]; }
      }
    }
  }

  /**
   * Consecutive windows of `ws`: each next window starts `overlap` before
   * the previous end, which happens exactly while that start is still inside
   * the text, so starts strictly increase; and the last window's
   * `end - overlap` is at or past the end of the text.
   */
  predicate Chained(text: string, overlap: nat, ws: seq<Window>) {
    && (forall j :: 0 <= j < |ws| - 1 ==>
          ws[j + 1].start == ws[j].end - overlap && ws[j].end - overlap < |text|
          && ws[j].start < ws[j + 1].start)
    && (ws != [] ==> ws[|ws| - 1].end - overlap >= |text|)
  }

  /**
   * The scan from `start` is empty exactly when `start` is at or past the
   * end of the text, otherwise its first window starts at `start`; its
   * windows are chained.
   */
  lemma {:induction false} WindowsChain(text: string, size: nat, overlap: nat, start: nat)
    requires ValidConfig(size, overlap)
    ensures start < |text| <==> WindowsFrom(text, size, overlap, start) != []
    ensures start < |text| ==> WindowsFrom(text, size, overlap, start)[0].start == start
    ensures Chained(text, overlap, WindowsFrom(text, size, overlap, start))
    decreases |text| - start
  {
    if start < |text| {
      WindowsUnfold(text, size, overlap, start);
      var end := WindowEnd(text, start, size);
      WindowsChain(text, size, overlap, end - overlap);
      var rest := WindowsFrom(text, size, overlap, end - overlap);
      var ws := [Window(start, end)] + rest;
      forall j | 0 <= j < |ws| - 1
        ensures ws[j + 1].start == ws[j].end - overlap && ws[j].end - overlap < |text|
                && ws[j].start < ws[j + 1].start
      {
        if j > 0 { assert ws[j] == rest[j - 1] && ws[j + 1] == rest[j]; }
      }
      assert ws != [] ==> ws[|ws| - 1].end - overlap >= |text| by {
        if rest != [] { assert ws[|ws| - 1] == rest[|rest| - 1]; }
      }
    }
  }

  /** Window `w` contains offset `k`. */
  predicate Covers(w: Window, k: int) {
    w.start <= k < w.end
  }

  /** Some window of `ws` covers offset `k`. */
  predicate CoveredBy(ws: seq<Window>, k: int) {
    exists j :: 0 <= j < |ws| && Covers(ws[j], k)
  }

  /** Putting a window in front keeps what the others cover, and adds its own offsets. */
  lemma CoverCons(w: Window, rest: seq<Window>, k: int)
    requires Covers(w, k) || CoveredBy(rest, k)
    ensures CoveredBy([w] + rest, k)
  {
    if Covers(w, k) {
      assert ([w] + rest)[0] == w;
    } else {
      var j :| 0 <= j < |rest| && Covers(rest[j], k);
      assert ([w] + rest)[j + 1] == rest[j];
    }
  }

  /** Every offset of the text from `start` on lies in some window of the scan. */
  lemma {:induction false} WindowsCover(text: string, size: nat, overlap: nat, start: nat, k: nat)
    requires ValidConfig(size, overlap)
    requires start <= k < |text|
    ensures CoveredBy(WindowsFrom(text, size, overlap, start), k)
    decreases |text| - start
  {
    var end := WindowEnd(text, start, size);
    WindowsStep(text, size, overlap, start, end);
    if end <= k {
      WindowsCover(text, size, overlap, end - overlap, k);
    }
    CoverCons(Window(start, end), WindowsFrom(text, size, overlap, end - overlap), k);
  }

  /** A window that fits yields a piece of the text no longer than `size`. */
  lemma PieceFacts(text: string, size: nat, w: Window)
    requires Fits(text, size, w)
    ensures |Piece(text, w)| <= size
    ensures exists a :: OccursAt(Piece(text, w), text, a)
  {
    var hi := Min(w.end, |text|);
    var a := SkipSpace(text, w.start, hi);
    var b := TrimSpace(text, a, hi);
    assert OccursAt(Piece(text, w), text, a);
    if w.end == w.start + size + 1 && a < hi {
      assert b != hi;
    }
  }

  /** Every chunk of a list of fitting windows is non-empty, short enough, and taken from the text. */
  lemma {:induction false} ChunksOfFacts(text: string, size: nat, ws: seq<Window>)
    requires AllFit(text, size, 0, ws)
    ensures |ChunksOf(text, ws)| <= |ws|
    ensures forall c :: c in ChunksOf(text, ws) ==> GoodChunk(c, text, size)
  {
    if ws != [] {
      var rest := ws[1..];
      assert AllFit(text, size, 0, rest) by {
        forall j | 0 <= j < |rest| ensures Fits(text, size, rest[j]) {
          assert rest[j] == ws[j + 1];
        }
      }
      ChunksOfFacts(text, size, rest);
      PieceFacts(text, size, ws[0]);
      var head := if Piece(text, ws[0]) != [] then [Piece(text, ws[0])] else [];
      assert ChunksOf(text, ws) == head + ChunksOf(text, rest);
      forall c | c in ChunksOf(text, ws) ensures GoodChunk(c, text, size) {
        if c !in ChunksOf(text, rest) {
          assert c in head;
        }
      }
    }
  }

  /** A chunk as `chunk_text` emits it for a long text: non-empty, at most `size` long, and taken from the text. */
  ghost predicate GoodChunk(c: string, text: string, size: nat) {
    c != [] && |c| <= size && exists a :: OccursAt(c, text, a)
  }

  /**
   * `chunk_text` returns `[text]` unchanged (even when empty) for a text of
   * at most `size` characters; otherwise every chunk is non-empty, at most
   * `size` long (a window can end one past `start + size`, but only on a
   * whitespace character that strip removes) and a contiguous substring of
   * the text.
   */
  lemma ChunksFacts(text: string, size: nat, overlap: nat)
    requires ValidConfig(size, overlap)
    ensures |text| <= size ==> Chunks(text, size, overlap) == [text]
    ensures |text| > size ==> forall c :: c in Chunks(text, size, overlap) ==>
      c != [] && |c| <= size && exists a :: OccursAt(c, text, a)
  {
    if |text| > size {
      WindowsFit(text, size, overlap, 0);
      ChunksOfFacts(text, size, WindowsFrom(text, size, overlap, 0));
    }
  }

  /**
   * A text longer than the chunk size with a positive overlap always gets at
   * least two windows: the first ends at most one past `size`, so the next
   * start `end - overlap` is still inside the text.
   */
  lemma AtLeastTwoWindows(text: string, size: nat, overlap: nat)
    requires ValidConfig(size, overlap) && overlap > 0 && |text| > size
    ensures |WindowsFrom(text, size, overlap, 0)| >= 2
  {
    WindowsUnfold(text, size, overlap, 0);
    var end := WindowEnd(text, 0, size);
    WindowsChain(text, size, overlap, end - overlap);
  }

  /** No sentence ending is found between `lo` and `hi` in a text without whitespace. */
  lemma NoBreakWithoutSpace(text: string, lo: nat, hi: int, dflt: int)
    requires forall i :: 0 <= i < |text| ==> !IsSpace(text[i])
    ensures LastBreak(text, lo, hi, dflt) == dflt
  {
    var r := LastBreak(text, lo, hi, dflt);
    if r != dflt {
      BoundaryEndsInSpace(text, r - 2);
    }
  }

  /**
   * The suffix-chunk behaviour: a 2500-character text without whitespace,
   * scanned with size 1000 and overlap 200, gets windows starting at 0, 800,
   * 1600 and 2400; the window starting at 1600 already reaches the end, yet
   * the scan goes on because `2600 - 200 < 2500`.
   */
  lemma SuffixWindowsExample(text: string)
    requires |text| == 2500
    requires forall i :: 0 <= i < |text| ==> !IsSpace(text[i])
    ensures WindowsFrom(text, 1000, 200, 0)
      == [Window(0, 1000), Window(800, 1800), Window(1600, 2600), Window(2400, 3400)]
  {
    NoBreakWithoutSpace(text, 900, 1000, 1000);
    NoBreakWithoutSpace(text, 1700, 1800, 1800);
    assert WindowEnd(text, 0, 1000) == 1000;
    assert WindowEnd(text, 800, 1000) == 1800;
    assert WindowEnd(text, 1600, 1000) == 2600;
    assert WindowEnd(text, 2400, 1000) == 3400;
    assert WindowsFrom(text, 1000, 200, 3200) == [];
    assert WindowsFrom(text, 1000, 200, 2400) == [Window(2400, 3400)];
    assert WindowsFrom(text, 1000, 200, 1600) == [Window(1600, 2600), Window(2400, 3400)];
    assert WindowsFrom(text, 1000, 200, 800)
      == [Window(800, 1800), Window(1600, 2600), Window(2400, 3400)];
  }

  /** In a text without whitespace a window that starts inside it contributes its whole slice. */
  lemma PieceNoSpace(text: string, w: Window)
    requires forall i :: 0 <= i < |text| ==> !IsSpace(text[i])
    requires w.start < w.end && w.start < |text|
    ensures Piece(text, w) == text[w.start..Min(w.end, |text|)]
  {
    var hi := Min(w.end, |text|);
    assert SkipSpace(text, w.start, hi) == w.start;
    assert TrimSpace(text, w.start, hi) == hi;
  }

  /** The slices `text[w.start:w.end]` of windows that start inside the text, in order. */
  function Slices(text: string, ws: seq<Window>): seq<string>
    requires forall j :: 0 <= j < |ws| ==> ws[j].start < ws[j].end && ws[j].start < |text|
  {
    if ws == [] then [] else [text[ws[0].start..Min(ws[0].end, |text|)]] + Slices(text, ws[1..])
  }

  /** In a text without whitespace, strip changes nothing and no window is dropped. */
  lemma {:induction false} ChunksOfNoSpace(text: string, ws: seq<Window>)
    requires forall i :: 0 <= i < |text| ==> !IsSpace(text[i])
    requires forall j :: 0 <= j < |ws| ==> ws[j].start < ws[j].end && ws[j].start < |text|
    ensures ChunksOf(text, ws) == Slices(text, ws)
  {
    if ws != [] {
      ChunksOfNoSpace(text, ws[1..]);
      PieceNoSpace(text, ws[0]);
    }
  }

  /**
   * Hence such a text gives FOUR chunks, not three: the last one,
   * `text[2400:]`, lies entirely inside the third.
   */
  lemma SuffixChunkExample(text: string)
    requires |text| == 2500
    requires forall i :: 0 <= i < |text| ==> !IsSpace(text[i])
    ensures Chunks(text, 1000, 200)
      == [text[0..1000], text[800..1800], text[1600..2500], text[2400..2500]]
  {
    SuffixWindowsExample(text);
    var ws := WindowsFrom(text, 1000, 200, 0);
    ChunksOfNoSpace(text, ws);
    assert Slices(text, ws[3..]) == [text[2400..2500]];
    assert Slices(text, ws[2..]) == [text[1600..2500]] + Slices(text, ws[3..]);
    assert Slices(text, ws[1..]) == [text[800..1800]] + Slices(text, ws[2..]);
  }
}
