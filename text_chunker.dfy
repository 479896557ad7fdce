/**
 * `TextChunker.chunk`: a character-window splitter with clamped window size and
 * overlap. The window starts form the sequence `WindowStarts`; every window is
 * stripped and the non-blank ones are emitted in order.
 */
module TextChunker {
  import opened Wrappers
  import opened JavaText

  /** The window size after clamping: at least 1. */
  function EffectiveSize(chunkSize: int): (size: int)
    ensures size >= 1
    ensures chunkSize >= 1 ==> size == chunkSize
  {
    Max(1, chunkSize)
  }

  /** The overlap after clamping: never negative and always below the window size, so
      the window start moves forward; an overlap of at least `size` becomes `size / 4`. */
  function EffectiveOverlap(size: int, overlap: int): (ov: int)
    requires size >= 1
    ensures 0 <= ov < size
    ensures 0 <= overlap < size ==> ov == overlap
    ensures overlap >= size ==> ov == size / 4
  {
    var ov := Max(0, overlap);
    if ov >= size then Max(0, size / 4) else ov
  }

  /** The offsets at which the loop opens a window over a text of length `n`, from `start`:
      after a window that does not reach the end, the next one starts `ov` characters
      before its end; the window that reaches the end is the last. */
  function WindowStarts(n: nat, size: nat, ov: nat, start: nat): (r: seq<nat>)
    requires ov < size
    ensures forall i :: 0 <= i < |r| ==> start <= r[i] < n
    decreases n - start
  {
    if start >= n then []
    else if start + size >= n then [start]
    else [start] + WindowStarts(n, size, ov, start + size - ov)
  }

  /** The window opened at `start` (empty past the end). */
  function Window(t: string, size: nat, start: nat): string {
    t[Min(|t|, start)..Min(|t|, start + size)]
  }

  /** The windows opened at `starts`, in order. */
  function Windows(t: string, size: nat, starts: seq<nat>): (ws: seq<string>)
    ensures |ws| == |starts|
    ensures forall i :: 0 <= i < |starts| ==> ws[i] == Window(t, size, starts[i])
  {
    if starts == [] then [] else [Window(t, size, starts[0])] + Windows(t, size, starts[1..])
  }

  /** What one window contributes: its strip, unless that is blank. */
  function Keep(w: string): seq<string> {
    var part := Strip(w);
    if IsBlank(part) then [] else [part]
  }

  /** The strips of `ws`, blank ones dropped, in order. */
  function Kept(ws: seq<string>): seq<string> {
    if ws == [] then [] else Keep(ws[0]) + Kept(ws[1..])
  }

  /** The windows the loop opens when it is about to open one at `start`, in order: after
      a window that does not reach the end, the next one starts `ov` before its end. */
  function WindowsFrom(t: string, size: nat, ov: nat, start: nat): seq<string>
    requires ov < size
    decreases |t| - start
  {
    if start >= |t| then []
    else
      var end := Min(|t|, start + size);
      [t[start..end]] + if end == |t| then [] else WindowsFrom(t, size, ov, Max(0, end - ov))
  }

  /** What `chunk(text, chunkSize, overlap)` returns: the kept strips of the windows of the
      stripped text. */
  function Chunked(text: Option<string>, chunkSize: int, overlap: int): (r: seq<string>)
    ensures IsNullOrBlank(text) ==> r == []
  {
    if IsNullOrBlank(text) then []
    else
      var size := EffectiveSize(chunkSize);
      var t := Strip(text.value);
      Kept(WindowsFrom(t, size, EffectiveOverlap(size, overlap), 0))
  }

  /** The window that reaches the end is the last. */
  lemma WindowsFromLast(t: string, size: nat, ov: nat, start: nat)
    requires ov < size && start < |t| <= start + size
    ensures WindowsFrom(t, size, ov, start) == [t[start..]]
  {
    assert Min(|t|, start + size) == |t|;
    assert t[start..|t|] == t[start..];
    assert [t[start..]] + [] == [t[start..]];
  }

  /** A window that does not reach the end is followed by the one `ov` before its end. */
  lemma WindowsFromNext(t: string, size: nat, ov: nat, start: nat, end: nat, next: nat)
    requires ov < size && end == start + size < |t| && next == end - ov
    ensures WindowsFrom(t, size, ov, start) == [t[start..end]] + WindowsFrom(t, size, ov, next)
  {
    assert Min(|t|, start + size) == end;
    assert Max(0, end - ov) == next;
  }

  /** The windows are the ones opened at `WindowStarts`. */
  lemma {:induction false} WindowsFromStarts(t: string, size: nat, ov: nat, start: nat)
    requires ov < size
    ensures WindowsFrom(t, size, ov, start) == Windows(t, size, WindowStarts(|t|, size, ov, start))
    decreases |t| - start
  {
    if start < |t| {
      if start + size >= |t| {
        WindowsFromLast(t, size, ov, start);
        StartsLast(|t|, size, ov, start);
        WindowsCons(t, size, start, []);
        assert Window(t, size, start) == t[start..];
      } else {
        var end := start + size;
        var next := end - ov;
        WindowsFromNext(t, size, ov, start, end, next);
        StartsNext(|t|, size, ov, start, next);
        WindowsCons(t, size, start, WindowStarts(|t|, size, ov, next));
        assert Window(t, size, start) == t[start..end];
        WindowsFromStarts(t, size, ov, next);
      }
    }
  }

  lemma StartsLast(n: nat, size: nat, ov: nat, start: nat)
    requires ov < size && start < n <= start + size
    ensures WindowStarts(n, size, ov, start) == [start]
  {
  }

  lemma StartsNext(n: nat, size: nat, ov: nat, start: nat, next: nat)
    requires ov < size && start + size < n && next == start + size - ov
    ensures WindowStarts(n, size, ov, start) == [start] + WindowStarts(n, size, ov, next)
  {
  }

  lemma WindowsCons(t: string, size: nat, s: nat, ss: seq<nat>)
    ensures Windows(t, size, [s] + ss) == [Window(t, size, s)] + Windows(t, size, ss)
  {
    assert ([s] + ss)[1..] == ss;
  }

  lemma KeptCons(w: string, ws: seq<string>)
    ensures Kept([w] + ws) == Keep(w) + Kept(ws)
  {
    assert ([w] + ws)[1..] == ws;
  }

  lemma Assoc(a: seq<string>, b: seq<string>, c: seq<string>)
    ensures a + (b + c) == (a + b) + c
  {
  }

  /** `TextChunker.chunk` */
  method Chunk(text: Option<string>, chunkSize: int, overlap: int) returns (out: seq<string>)
    ensures out == Chunked(text, chunkSize, overlap)
  {
    if text.None? || IsBlank(text.value) {
      return [];
    }
    var size := Max(1, chunkSize);
    var ov := Max(0, overlap);
    if ov >= size {
      ov := Max(0, size / 4);
    }
    var normalized := Strip(text.value);
    var n := |normalized|;
    ghost var all := Kept(WindowsFrom(normalized, size, ov, 0));
    out := [];
    var start := 0;
    while start < n
      invariant 0 <= start <= n
      invariant out + Kept(WindowsFrom(normalized, size, ov, start)) == all
      decreases n - start
    {
      var end := Min(n, start + size);
      var part := Strip(normalized[start..end]);
      ghost var prev := out;
      if !IsBlank(part) {
        out := out + [part];
      }
      assert out == prev + Keep(normalized[start..end]);
      LoopStep(normalized, size, ov, start, end, prev, out, all);
      if end == n {
        break;
      }
      start := Max(0, end - ov);
    }
    if start >= n {
      LoopExit(normalized, size, ov, start, out, all);
    }
  }

  /** One turn of the loop: the window at `start` is consumed; either it reached the end
      and the output is complete, or the loop goes on at `end - ov` with less left to add. */
  lemma LoopStep(t: string, size: nat, ov: nat, start: nat, end: nat, out: seq<string>, out': seq<string>, all: seq<string>)
    requires ov < size && start < |t| && end == Min(|t|, start + size)
    requires out + Kept(WindowsFrom(t, size, ov, start)) == all
    requires out' == out + Keep(t[start..end])
    ensures end == |t| ==> out' == all
    ensures end != |t| ==> start < Max(0, end - ov) <= |t| && out' + Kept(WindowsFrom(t, size, ov, Max(0, end - ov))) == all
  {
    if end == |t| {
      WindowsFromLast(t, size, ov, start);
      assert t[start..end] == t[start..];
      KeptCons(t[start..], []);
      assert Keep(t[start..]) + [] == Keep(t[start..]);
    } else {
      var next := Max(0, end - ov);
      WindowsFromNext(t, size, ov, start, end, next);
      KeptCons(t[start..end], WindowsFrom(t, size, ov, next));
      Assoc(out, Keep(t[start..end]), Kept(WindowsFrom(t, size, ov, next)));
    }
  }

  /** When the loop condition fails, nothing is left to add. */
  lemma LoopExit(t: string, size: nat, ov: nat, start: nat, out: seq<string>, all: seq<string>)
    requires ov < size && start >= |t|
    requires out + Kept(WindowsFrom(t, size, ov, start)) == all
    ensures out == all
  {
    assert out + [] == out;
  }

  // ---- properties of the windows ------------------------------------------

  /** The window layout: the first window starts at 0; each later window starts exactly
      `size - ov` after the previous one (so consecutive windows share exactly `ov`
      characters and the starts increase strictly); only the last window reaches `n`. */
  lemma {:induction false} WindowLayout(n: nat, size: nat, ov: nat, start: nat)
    requires ov < size && start < n
    ensures var r := WindowStarts(n, size, ov, start);
      && |r| >= 1 && r[0] == start
      && (forall i :: 0 <= i < |r| - 1 ==> r[i + 1] == r[i] + size - ov && r[i] + size < n)
      && r[|r| - 1] + size >= n
    decreases n - start
  {
    if start + size < n {
      WindowLayout(n, size, ov, start + size - ov);
    }
  }

  /** Every character of the text lies in some window. */
  lemma {:induction false} WindowsCover(n: nat, size: nat, ov: nat, start: nat, p: nat)
    requires ov < size && start <= p < n
    ensures var r := WindowStarts(n, size, ov, start);
      exists i :: 0 <= i < |r| && r[i] <= p < r[i] + size
    decreases n - start
  {
    var r := WindowStarts(n, size, ov, start);
    if start + size >= n {
      StartsLast(n, size, ov, start);
      assert r[0] <= p < r[0] + size;
    } else {
      var next := start + size - ov;
      StartsNext(n, size, ov, start, next);
      if p < start + size {
        assert r[0] <= p < r[0] + size;
      } else {
        WindowsCover(n, size, ov, next, p);
        var r' := WindowStarts(n, size, ov, next);
        var i :| 0 <= i < |r'| && r'[i] <= p < r'[i] + size;
        assert r[i + 1] == r'[i];
      }
    }
  }

  // ---- properties of the chunks -------------------------------------------

  /** Each chunk is the strip of the text between a window start and `size` characters
      later (or the end), for the starts of `WindowStarts`, in order, blank strips dropped. */
  lemma ChunkedWindows(text: string, chunkSize: int, overlap: int)
    requires !IsBlank(text)
    ensures var size := EffectiveSize(chunkSize);
      var t := Strip(text);
      Chunked(Some(text), chunkSize, overlap) == Kept(Windows(t, size, WindowStarts(|t|, size, EffectiveOverlap(size, overlap), 0)))
  {
    var size := EffectiveSize(chunkSize);
    WindowsFromStarts(Strip(text), size, EffectiveOverlap(size, overlap), 0);
  }

  /** No window is longer than `size`. */
  lemma {:induction false} WindowsFromBounded(t: string, size: nat, ov: nat, start: nat)
    requires ov < size
    ensures forall w :: w in WindowsFrom(t, size, ov, start) ==> |w| <= size
    decreases |t| - start
  {
    if start < |t| {
      if start + size >= |t| {
        WindowsFromLast(t, size, ov, start);
      } else {
        var end := start + size;
        var next := end - ov;
        WindowsFromNext(t, size, ov, start, end, next);
        WindowsFromBounded(t, size, ov, next);
      }
    }
  }

  /** Every kept strip is non-blank, already stripped and no longer than the longest window. */
  lemma {:induction false} KeptWellFormed(ws: seq<string>, size: nat)
    requires forall w :: w in ws ==> |w| <= size
    ensures forall c :: c in Kept(ws) ==> !IsBlank(c) && Strip(c) == c && |c| <= size
  {
    if ws != [] {
      StripIdempotent(ws[0]);
      assert ws[0] in ws;
      assert forall w :: w in ws[1..] ==> w in ws;
      KeptWellFormed(ws[1..], size);
    }
  }

  /** Every chunk is non-blank, stripped and no longer than the effective size. */
  lemma ChunksWellFormed(text: Option<string>, chunkSize: int, overlap: int)
    ensures forall c :: c in Chunked(text, chunkSize, overlap) ==>
      !IsBlank(c) && Strip(c) == c && |c| <= EffectiveSize(chunkSize)
  {
    if !IsNullOrBlank(text) {
      var size := EffectiveSize(chunkSize);
      var t := Strip(text.value);
      var ov := EffectiveOverlap(size, overlap);
      WindowsFromBounded(t, size, ov, 0);
      KeptWellFormed(WindowsFrom(t, size, ov, 0), size);
    }
  }

  /** A non-blank text whose strip fits in one window gives exactly that strip. */
  lemma ShortTextIsOneChunk(text: string, chunkSize: int, overlap: int)
    requires !IsBlank(text) && |Strip(text)| <= EffectiveSize(chunkSize)
    ensures Chunked(Some(text), chunkSize, overlap) == [Strip(text)]
  {
    var size := EffectiveSize(chunkSize);
    var t := Strip(text);
    WindowsFromLast(t, size, EffectiveOverlap(size, overlap), 0);
    assert t[0..] == t;
    KeptCons(t, []);
    StripIdempotent(text);
    assert Keep(t) == [t];
  }

  /** A text that is not blank gives at least one chunk: the first window starts with
      the first non-whitespace character. */
  lemma NonBlankTextHasChunks(text: string, chunkSize: int, overlap: int)
    requires !IsBlank(text)
    ensures Chunked(Some(text), chunkSize, overlap) != []
  {
    var size := EffectiveSize(chunkSize);
    var ov := EffectiveOverlap(size, overlap);
    var t := Strip(text);
    var w, rest := FirstWindow(t, size, ov);
    KeptFirstNonBlank(w, rest);
  }

  /** The first window of a non-empty text starts where the text does. */
  lemma FirstWindow(t: string, size: nat, ov: nat) returns (w: string, rest: seq<string>)
    requires ov < size && t != []
    ensures WindowsFrom(t, size, ov, 0) == [w] + rest
    ensures w != [] && w[0] == t[0]
  {
    if |t| <= size {
      WindowsFromLast(t, size, ov, 0);
      w, rest := t[0..], [];
    } else {
      WindowsFromNext(t, size, ov, 0, size, size - ov);
      w, rest := t[0..size], WindowsFrom(t, size, ov, size - ov);
    }
  }

  /** A first window that starts with a non-whitespace character is kept. */
  lemma KeptFirstNonBlank(w: string, rest: seq<string>)
    requires w != [] && !IsWhitespace(w[0])
    ensures Kept([w] + rest) != []
  {
    KeptCons(w, rest);
    assert !IsBlank(w);
    var part := Strip(w);
    assert !IsBlank(part);
    assert Keep(w) == [part];
  }
}
