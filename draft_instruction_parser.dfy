/**
 * `DraftInstructionParser`: recognises a hand-written trigger draft. Its first
 * non-blank text must start with "write" in any letter case; the second line, when
 * present and not blank, is a free-form note; everything below it is ignored.
 */
module DraftInstructionParser {
  import opened Wrappers
  import opened JavaText

  /** `ParsedDraft(isWriteDraft, note)`; a null note is `None`. */
  datatype ParsedDraft = ParsedDraft(isWriteDraft: bool, note: Option<string>)

  // ---- ltrim ---------------------------------------------------------------------

  /** What `ltrim` returns: the suffix that starts at the first non-whitespace character. */
  function LeftTrimmed(s: string): (r: string)
    ensures |r| <= |s| && r == s[|s| - |r|..]
    ensures forall i :: 0 <= i < |s| - |r| ==> IsWhitespace(s[i])
    ensures r != [] ==> !IsWhitespace(r[0])
  {
    s[FirstNonWhitespace(s)..]
  }

  /** `ltrim`: skip leading whitespace one character at a time. */
  method LTrim(s: string) returns (r: string)
    ensures r == LeftTrimmed(s)
  {
    var i := 0;
    while i < |s| && IsWhitespace(s[i])
      invariant 0 <= i <= FirstNonWhitespace(s)
      decreases |s| - i
    {
      i := i + 1;
    }
    r := s[i..];
  }

  // ---- parse ---------------------------------------------------------------------

  /** `replace("\r\n", "\n")` */
  function Normalize(s: string): string {
    Replace(s, "\r\n", "\n")
  }

  /** The part of `parse` after `ltrim`: a text that does not start with "write" after
      lowercasing is not a write draft; otherwise the note is the stripped second line
      when it exists and is not blank. */
  function Recognise(trimmedLeft: string): (d: ParsedDraft)
    ensures !d.isWriteDraft ==> d.note.None?
    ensures d.note.Some? ==>
      var n := d.note.value;
      && !IsBlank(n) && Strip(n) == n && '\n' !in n
  {
    if !StartsWith(ToLower(trimmedLeft), "write") then ParsedDraft(false, None)
    else
      var lines := SplitLines(trimmedLeft);
      if |lines| >= 2 && !IsBlank(lines[1]) then
        StripIdempotent(lines[1]);
        StripOmits(lines[1], '\n');
        ParsedDraft(true, Some(Strip(lines[1])))
      else ParsedDraft(true, None)
  }

  /** `parse`: null is not a write draft; any other body is normalised, left-trimmed and
      recognised. */
  function Parse(body: Option<string>): (d: ParsedDraft)
    ensures body.None? ==> d == ParsedDraft(false, None)
    ensures !d.isWriteDraft ==> d.note.None?
    ensures d.note.Some? ==>
      var n := d.note.value;
      && !IsBlank(n) && Strip(n) == n && '\n' !in n
  {
    match body
    case None => ParsedDraft(false, None)
    case Some(b) => Recognise(LeftTrimmed(Normalize(b)))
  }

  /** A write draft is one whose first five non-whitespace characters spell "write" in
      any letter case. */
  lemma WriteDraftMeans(b: string)
    ensures var n := Normalize(b);
      var k := FirstNonWhitespace(n);
      Parse(Some(b)).isWriteDraft <==> k + 5 <= |n| && ToLower(n[k..k + 5]) == "write"
  {
    var n := Normalize(b);
    var k := FirstNonWhitespace(n);
    var t := LeftTrimmed(n);
    assert t == n[k..];
    if |t| >= 5 {
      assert ToLower(t)[..5] == ToLower(n[k..k + 5]);
    }
  }

  /** The note of a write draft is the stripped second line, between the first and the
      second newline of the left-trimmed text, unless that line is blank. */
  lemma NoteIsSecondLine(b: string, first: string, second: string, more: string)
    requires LeftTrimmed(Normalize(b)) == first + "\n" + second + "\n" + more
    requires '\n' !in first && '\n' !in second
    requires Parse(Some(b)).isWriteDraft
    ensures Parse(Some(b)).note == if IsBlank(second) then None else Some(Strip(second))
  {
    var t := LeftTrimmed(Normalize(b));
    assert Parse(Some(b)) == Recognise(t);
    SecondLineOf(t, first, second, more);
  }

  lemma SecondLineOf(t: string, first: string, second: string, more: string)
    requires t == first + "\n" + second + "\n" + more
    requires '\n' !in first && '\n' !in second
    ensures |SplitLines(t)| >= 2 && SplitLines(t)[1] == second
  {
    assert t == first + "\n" + (second + "\n" + more);
    SplitCons(first, second + "\n" + more);
    SplitCons(second, more);
  }

  /** The same when the second line is the last: it runs to the end of the text. */
  lemma NoteIsLastLine(b: string, first: string, second: string)
    requires LeftTrimmed(Normalize(b)) == first + "\n" + second
    requires '\n' !in first && '\n' !in second
    requires Parse(Some(b)).isWriteDraft
    ensures Parse(Some(b)).note == if IsBlank(second) then None else Some(Strip(second))
  {
    SplitCons(first, second);
    assert IndexOfChar(second, '\n', 0) == -1;
  }

  /** A left-trimmed text without a newline has no second line, so no note. */
  lemma SingleLineHasNoNote(b: string)
    requires '\n' !in LeftTrimmed(Normalize(b))
    ensures Parse(Some(b)).note.None?
  {
    var t := LeftTrimmed(Normalize(b));
    assert IndexOfChar(t, '\n', 0) == -1;
  }

  /** A text without carriage returns is not changed by the line-ending normalisation. */
  lemma NormalizeWithoutCarriageReturn(s: string)
    requires '\r' !in s
    ensures Normalize(s) == s
  {
    forall i | 0 <= i <= |s| - 2 ensures !OccursAt(s, "\r\n", i) {
      assert s[i] != '\r';
    }
    ReplaceAbsent(s, "\r\n", "\n");
  }

  /** Lines three and beyond never affect the result: two bodies whose normalised,
      left-trimmed texts share their first two lines parse alike, whatever follows. */
  lemma LaterLinesIgnored(b1: string, b2: string, u: string, l2: string, x: string, y: string)
    requires u != [] && '\n' !in u && '\n' !in l2
    requires LeftTrimmed(Normalize(b1)) == u + "\n" + l2 + "\n" + x
    requires LeftTrimmed(Normalize(b2)) == u + "\n" + l2 + "\n" + y
    ensures Parse(Some(b1)) == Parse(Some(b2))
  {
    var p := u + "\n" + l2 + "\n";
    assert u + "\n" + l2 + "\n" + x == p + x;
    assert u + "\n" + l2 + "\n" + y == p + y;
    RecogniseLaterLines(u, l2, p, x, y);
  }

  /** In particular, two bodies that share a first line starting with a non-whitespace
      character and a second line, both without carriage returns or newlines, parse
      alike. */
  lemma LaterLinesIgnoredAfterCleanLines(u: string, l2: string, x: string, y: string)
    requires u != [] && !IsWhitespace(u[0])
    requires '\r' !in u && '\n' !in u && '\r' !in l2 && '\n' !in l2
    ensures Parse(Some(u + "\n" + l2 + "\n" + x)) == Parse(Some(u + "\n" + l2 + "\n" + y))
  {
    var p := u + "\n" + l2 + "\n";
    assert '\r' !in p;
    assert u + "\n" + l2 + "\n" + x == p + x;
    assert u + "\n" + l2 + "\n" + y == p + y;
    var nx, ny := Normalize(x), Normalize(y);
    WithPrefix(u, l2, p, x, nx);
    WithPrefix(u, l2, p, y, ny);
    assert p + nx == u + "\n" + l2 + "\n" + nx;
    assert p + ny == u + "\n" + l2 + "\n" + ny;
    LaterLinesIgnored(p + x, p + y, u, l2, nx, ny);
  }

  /** How a body made of two clean lines and a tail is normalised and trimmed. */
  lemma WithPrefix(u: string, l2: string, p: string, x: string, nx: string)
    requires u != [] && !IsWhitespace(u[0])
    requires p == u + "\n" + l2 + "\n" && '\r' !in p
    requires nx == Normalize(x)
    ensures Normalize(p + x) == p + nx
    ensures LeftTrimmed(p + nx) == p + nx
  {
    ReplaceSkipsPrefix(p, x, "\r\n", "\n");
    assert (p + nx)[0] == u[0];
  }

  /** After the left trim, only the first two lines matter. */
  lemma RecogniseLaterLines(u: string, l2: string, p: string, x: string, y: string)
    requires u != [] && '\n' !in u && '\n' !in l2
    requires p == u + "\n" + l2 + "\n"
    ensures Recognise(p + x) == Recognise(p + y)
  {
    SameStart(u, p, x, y);
    LinesAfterPrefix(u, l2, p, x);
    LinesAfterPrefix(u, l2, p, y);
  }

  lemma LinesAfterPrefix(u: string, l2: string, p: string, x: string)
    requires '\n' !in u && '\n' !in l2
    requires p == u + "\n" + l2 + "\n"
    ensures SplitLines(p + x) == [u, l2] + SplitLines(x)
  {
    var tail := l2 + "\n" + x;
    assert p + x == u + "\n" + tail;
    SplitCons(u, tail);
    SplitCons(l2, x);
    assert SplitLines(p + x) == [u] + ([l2] + SplitLines(x));
    assert [u] + ([l2] + SplitLines(x)) == [u, l2] + SplitLines(x);
  }

  /** Whether a text starting with `p` starts with "write" (in any case) depends only on
      `p`, when `p`'s first line ends before its own end. */
  lemma SameStart(u: string, p: string, x: string, y: string)
    requires |u| < |p| && p[|u|] == '\n'
    ensures StartsWith(ToLower(p + x), "write") == StartsWith(ToLower(p + y), "write")
  {
    var a, b := ToLower(p + x), ToLower(p + y);
    if |p| >= 5 {
      assert a[..5] == b[..5];
    } else {
      assert a[|u|] == '\n' == b[|u|];
      assert "write"[|u|] != '\n';
    }
  }

  /** Any body that begins with "write" in some letter case is a trigger, whatever
      follows: "Write", "writeup", "write now" and "Write\r\nkeep it short" all qualify. */
  lemma WritePrefixTriggers(w: string, rest: string)
    requires |w| == 5 && ToLower(w) == "write"
    ensures Parse(Some(w + rest)).isWriteDraft
  {
    var b := w + rest;
    forall i | 0 <= i < |w| ensures w[i] != '\r' {
      assert LowerChar(w[i]) == "write"[i];
    }
    ReplaceSkipsPrefix(w, rest, "\r\n", "\n");
    var n := Normalize(b);
    assert n == w + Normalize(rest);
    assert n[0] == w[0] && LowerChar(w[0]) == 'w';
    assert FirstNonWhitespace(n) == 0;
    assert n[0..5] == w;
    WriteDraftMeans(b);
  }
}
