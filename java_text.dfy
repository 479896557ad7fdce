/**
 * The parts of `java.lang.String`, `java.lang.Character` and `java.lang.Integer`
 * that the email agent relies on, stated over `seq<char>`.
 *
 * Case conversion covers ASCII letters only; everything else here follows the
 * Java library's documented behaviour.
 */
module JavaText {
  import opened Wrappers

  /** `Character.isWhitespace`: the Unicode space, line and paragraph separators other than
      the non-breaking ones, plus U+0009..U+000D and U+001C..U+001F. */
  predicate IsWhitespace(c: char) {
    ('\t' <= c <= '\r') || ('\U{1C}' <= c <= ' ') || c == '\U{1680}'
    || ('\U{2000}' <= c <= '\U{2006}') || ('\U{2008}' <= c <= '\U{200A}')
    || c == '\U{2028}' || c == '\U{2029}' || c == '\U{205F}' || c == '\U{3000}'
  }

  /** `String.isBlank`: empty or only whitespace. */
  predicate IsBlank(s: string) {
    s == [] || (IsWhitespace(s[0]) && IsBlank(s[1..]))
  }

  /** `IsBlank` holds exactly when every character is whitespace. */
  lemma {:induction false} BlankMeans(s: string)
    ensures IsBlank(s) <==> forall i :: 0 <= i < |s| ==> IsWhitespace(s[i])
  {
    if s != [] {
      BlankMeans(s[1..]);
      assert forall i :: 1 <= i < |s| ==> s[i] == s[1..][i - 1];
    }
  }

  /** `s == null || s.isBlank()` */
  predicate IsNullOrBlank(s: Option<string>) {
    s.None? || IsBlank(s.value)
  }

  /** Offset of the first non-whitespace character, or `|s|`. */
  function FirstNonWhitespace(s: string): (k: nat)
    ensures k <= |s|
    ensures forall i :: 0 <= i < k ==> IsWhitespace(s[i])
    ensures k < |s| ==> !IsWhitespace(s[k])
  {
    if s == [] || !IsWhitespace(s[0]) then 0 else 1 + FirstNonWhitespace(s[1..])
  }

  /** `String.strip`: leading and trailing whitespace removed. */
  function Strip(s: string): (r: string)
    ensures |r| <= |s|
    ensures r == [] <==> IsBlank(s)
    ensures r != [] ==> !IsWhitespace(r[0]) && !IsWhitespace(r[|r| - 1])
  {
    if s == [] then []
    else if IsWhitespace(s[0]) then Strip(s[1..])
    else if IsWhitespace(s[|s| - 1]) then Strip(s[..|s| - 1])
    else s
  }

  /** A string without whitespace at either end is its own strip. */
  lemma StripFixed(s: string)
    requires s != [] ==> !IsWhitespace(s[0]) && !IsWhitespace(s[|s| - 1])
    ensures Strip(s) == s
  {
  }

  lemma StripIdempotent(s: string)
    ensures Strip(Strip(s)) == Strip(s)
  {
    StripFixed(Strip(s));
  }

  /** `strip` returns a substring: the characters from offset `a` on, as many as it keeps. */
  lemma StripSlice(s: string) returns (a: nat)
    ensures a + |Strip(s)| <= |s| && Strip(s) == s[a..a + |Strip(s)|]
  {
    assert s[0..|s|] == s;
    a := StripWindow(s, 0, |s|);
  }

  /** The strip of the window `s[lo..hi]` is a window of `s` inside it. */
  lemma {:induction false} StripWindow(s: string, lo: nat, hi: nat) returns (a: nat)
    requires lo <= hi <= |s|
    ensures StripsTo(s, lo, hi, a)
    decreases hi - lo
  {
    if lo == hi {
      a := lo;
    } else if IsWhitespace(s[lo]) {
      a := StripWindow(s, lo + 1, hi);
      StripFrontStep(s, lo, hi, a);
    } else if IsWhitespace(s[hi - 1]) {
      a := StripWindow(s, lo, hi - 1);
      StripBackStep(s, lo, hi, a);
    } else {
      a := lo;
      StripFixed(s[lo..hi]);
    }
  }

  /** The strip of `s[lo..hi]` is `s[a..]`, as many characters as it keeps. */
  predicate StripsTo(s: string, lo: nat, hi: nat, a: nat)
    requires lo <= hi <= |s|
  {
    var r := Strip(s[lo..hi]);
    lo <= a && a + |r| <= hi && r == s[a..a + |r|]
  }

  lemma StripFrontStep(s: string, lo: nat, hi: nat, a: nat)
    requires lo < hi <= |s| && IsWhitespace(s[lo]) && StripsTo(s, lo + 1, hi, a)
    ensures StripsTo(s, lo, hi, a)
  {
    var w := s[lo..hi];
    assert w[0] == s[lo];
    assert w[1..] == s[lo + 1..hi];
  }

  lemma StripBackStep(s: string, lo: nat, hi: nat, a: nat)
    requires lo < hi <= |s| && !IsWhitespace(s[lo]) && IsWhitespace(s[hi - 1])
    requires StripsTo(s, lo, hi - 1, a)
    ensures StripsTo(s, lo, hi, a)
  {
    var w := s[lo..hi];
    assert w[0] == s[lo] && w[|w| - 1] == s[hi - 1];
    assert w[..|w| - 1] == s[lo..hi - 1];
  }

  /** `strip` adds no character: one absent from `s` is absent from its strip. */
  lemma StripOmits(s: string, c: char)
    requires c !in s
    ensures c !in Strip(s)
  {
    var a := StripSlice(s);
    var r := Strip(s);
    forall i | 0 <= i < |r| ensures r[i] != c {
      assert r[i] == s[a + i];
    }
  }

  /** `String.startsWith` */
  predicate StartsWith(s: string, p: string) {
    |p| <= |s| && s[..|p|] == p
  }

  /** `n` occurs in `h` at offset `i`. */
  predicate OccursAt(h: string, n: string, i: int) {
    0 <= i && i + |n| <= |h| && h[i..i + |n|] == n
  }

  /** `n` occurs somewhere in `h`: the reference meaning of `String.contains`. */
  predicate Occurs(h: string, n: string) {
    exists i :: 0 <= i <= |h| - |n| && OccursAt(h, n, i)
  }

  /** `String.indexOf(String, int)` for a non-negative start. */
  function IndexOfFrom(h: string, n: string, from: nat): (r: int)
    ensures r == -1 || (from <= r && OccursAt(h, n, r))
    ensures forall i :: from <= i && (r == -1 || i < r) ==> !OccursAt(h, n, i)
    decreases |h| - from
  {
    if from + |n| > |h| then -1
    else if h[from..from + |n|] == n then from
    else IndexOfFrom(h, n, from + 1)
  }

  /** `String.indexOf(String)`: the first offset at which `n` occurs in `h`, or -1. */
  function IndexOf(h: string, n: string): (r: int)
    ensures r == -1 <==> !Occurs(h, n)
    ensures r != -1 ==> OccursAt(h, n, r) && forall i :: 0 <= i < r ==> !OccursAt(h, n, i)
  {
    IndexOfFrom(h, n, 0)
  }

  /** `String.contains` */
  predicate Contains(h: string, n: string) {
    IndexOf(h, n) >= 0
  }

  /** `String.indexOf(int ch, int fromIndex)` for a non-negative start. */
  function IndexOfChar(s: string, c: char, from: nat): (r: int)
    ensures r == -1 || (from <= r < |s| && s[r] == c)
    ensures forall i :: from <= i < |s| && (r == -1 || i < r) ==> s[i] != c
    decreases |s| - from
  {
    if from >= |s| then -1 else if s[from] == c then from else IndexOfChar(s, c, from + 1)
  }

  /** `Character.toLowerCase`, restricted to ASCII letters. */
  function LowerChar(c: char): char {
    if 'A' <= c <= 'Z' then (c as int + 32) as char else c
  }

  /** `String.toLowerCase`, restricted to ASCII letters (so the length never changes). */
  function ToLower(s: string): (r: string)
    ensures |r| == |s|
    ensures forall i :: 0 <= i < |s| ==> r[i] == LowerChar(s[i])
  {
    seq(|s|, i requires 0 <= i < |s| => LowerChar(s[i]))
  }

  /** `String.replace(char, char)` */
  function ReplaceChar(s: string, from: char, to: char): (r: string)
    ensures |r| == |s|
    ensures forall i :: 0 <= i < |s| ==> r[i] == if s[i] == from then to else s[i]
  {
    seq(|s|, i requires 0 <= i < |s| => if s[i] == from then to else s[i])
  }

  /** `String.replace` with an empty target: the replacement goes before every character and at the end. */
  function InsertEverywhere(s: string, x: string): string {
    if s == [] then x else x + [s[0]] + InsertEverywhere(s[1..], x)
  }

  /** `String.replace(CharSequence, CharSequence)`: every occurrence of `target`, found
      left to right without overlap, becomes `replacement`. */
  function Replace(s: string, target: string, replacement: string): string {
    if target == [] then InsertEverywhere(s, replacement) else ReplaceNonEmpty(s, target, replacement)
  }

  /** `Replace` for a non-empty target. */
  function ReplaceNonEmpty(s: string, target: string, replacement: string): string
    requires target != []
    decreases |s|
  {
    if |s| < |target| then s
    else if s[..|target|] == target then replacement + ReplaceNonEmpty(s[|target|..], target, replacement)
    else [s[0]] + ReplaceNonEmpty(s[1..], target, replacement)
  }

  /** A character that cannot start an occurrence of `target` passes through `Replace`. */
  lemma ReplaceSkipsChar(c: char, w: string, target: string, replacement: string)
    requires target != [] && c != target[0]
    ensures ReplaceNonEmpty([c] + w, target, replacement) == [c] + ReplaceNonEmpty(w, target, replacement)
  {
    var s := [c] + w;
    assert s[1..] == w;
    if |s| >= |target| {
      assert s[..|target|][0] == c;
    } else {
      assert ReplaceNonEmpty(w, target, replacement) == w;
    }
  }

  /** A prefix free of `target`'s first character passes through `Replace` unchanged. */
  lemma {:induction false} ReplaceSkipsPrefix(p: string, w: string, target: string, replacement: string)
    requires target != [] && target[0] !in p
    ensures ReplaceNonEmpty(p + w, target, replacement) == p + ReplaceNonEmpty(w, target, replacement)
    decreases |p|
  {
    if p != [] {
      var c, q := p[0], p[1..];
      assert p + w == [c] + (q + w);
      ReplaceSkipsChar(c, q + w, target, replacement);
      ReplaceSkipsPrefix(q, w, target, replacement);
      calc {
        ReplaceNonEmpty(p + w, target, replacement);
        [c] + ReplaceNonEmpty(q + w, target, replacement);
        [c] + (q + ReplaceNonEmpty(w, target, replacement));
        { assert p == [c] + q; }
        p + ReplaceNonEmpty(w, target, replacement);
      }
    } else {
      assert p + w == w;
    }
  }

  /** A text in which `target` does not occur is left unchanged by `Replace`. */
  lemma {:induction false} ReplaceAbsent(s: string, target: string, replacement: string)
    requires target != [] && !Occurs(s, target)
    ensures ReplaceNonEmpty(s, target, replacement) == s
  {
    if |s| >= |target| {
      assert !OccursAt(s, target, 0);
      assert s[..|target|] != target;
      forall i | OccursAt(s[1..], target, i) ensures false {
        assert s[1..][i..i + |target|] == s[i + 1..i + 1 + |target|];
        assert OccursAt(s, target, i + 1);
      }
      ReplaceAbsent(s[1..], target, replacement);
    }
  }

  // ---- String.split("\n", -1) / String.join("\n", ...) ------------------------------

  /** `s.split("\n", -1)`: the pieces between newlines, empty pieces included. */
  function SplitLines(s: string): (lines: seq<string>)
    ensures |lines| >= 1
    ensures forall i :: 0 <= i < |lines| ==> '\n' !in lines[i]
    decreases |s|
  {
    var i := IndexOfChar(s, '\n', 0);
    if i < 0 then [s] else [s[..i]] + SplitLines(s[i + 1..])
  }

  /** `String.join("\n", lines)` */
  function JoinLines(lines: seq<string>): string
    requires |lines| >= 1
  {
    if |lines| == 1 then lines[0] else lines[0] + "\n" + JoinLines(lines[1..])
  }

  /** A line without newlines, a newline and the rest split into that line and the
      rest's lines. */
  lemma SplitCons(u: string, rest: string)
    requires '\n' !in u
    ensures SplitLines(u + "\n" + rest) == [u] + SplitLines(rest)
  {
    var s := u + "\n" + rest;
    assert s[|u|] == '\n';
    assert forall i :: 0 <= i < |u| ==> s[i] == u[i];
    var i := IndexOfChar(s, '\n', 0);
    assert i == |u|;
    assert s[..i] == u && s[i + 1..] == rest;
  }

  /** Joining the pieces with newlines gives back the text. */
  lemma {:induction false} JoinSplit(s: string)
    ensures JoinLines(SplitLines(s)) == s
    decreases |s|
  {
    var i := IndexOfChar(s, '\n', 0);
    if i >= 0 {
      var rest := s[i + 1..];
      var ls := SplitLines(s);
      assert ls == [s[..i]] + SplitLines(rest);
      assert ls[1..] == SplitLines(rest);
      JoinSplit(rest);
      assert s == s[..i] + "\n" + rest;
    }
  }

  /** Splitting newline-free lines joined with newlines gives back the lines. */
  lemma {:induction false} SplitJoin(lines: seq<string>)
    requires |lines| >= 1
    requires forall i :: 0 <= i < |lines| ==> '\n' !in lines[i]
    ensures SplitLines(JoinLines(lines)) == lines
    decreases |lines|
  {
    if |lines| == 1 {
      assert IndexOfChar(lines[0], '\n', 0) == -1;
    } else {
      SplitJoin(lines[1..]);
      SplitCons(lines[0], JoinLines(lines[1..]));
      assert lines == [lines[0]] + lines[1..];
    }
  }

  // ---- Math.max / Math.min, Java integer widths --------------------------------

  function Max(a: int, b: int): int { if a < b then b else a }
  function Min(a: int, b: int): int { if a < b then a else b }

  const IntMin: int := -0x8000_0000
  const IntMax: int := 0x7FFF_FFFF
  const LongMin: int := -0x8000_0000_0000_0000
  const LongMax: int := 0x7FFF_FFFF_FFFF_FFFF

  /** Two's-complement wrap-around of an exact product or sum into a Java `long`. */
  function ToLong(x: int): (r: int)
    ensures LongMin <= r <= LongMax
    ensures LongMin <= x <= LongMax ==> r == x
  {
    if LongMin <= x <= LongMax then x else (x - LongMin) % 0x1_0000_0000_0000_0000 + LongMin
  }

  // ---- Integer.toString / Integer.parseInt ----------------------------------

  predicate IsDigit(c: char) {
    '0' <= c <= '9'
  }

  predicate AllDigits(s: string) {
    forall i :: 0 <= i < |s| ==> IsDigit(s[i])
  }

  function DigitChar(d: nat): char
    requires d <= 9
  {
    ('0' as int + d) as char
  }

  /** Decimal digits of a natural number, without leading zeros. */
  function NatToString(n: nat): (r: string)
    ensures r != [] && AllDigits(r)
  {
    if n < 10 then [DigitChar(n)] else NatToString(n / 10) + [DigitChar(n % 10)]
  }

  /** `Integer.toString(int)` (and `"" + n`). */
  function IntToString(n: int): string {
    if n < 0 then "-" + NatToString(-n) else NatToString(n)
  }

  /** The value of a string of decimal digits. */
  function DigitsValue(s: string): nat
    requires AllDigits(s)
  {
    if s == [] then 0 else DigitsValue(s[..|s| - 1]) * 10 + (s[|s| - 1] as int - '0' as int)
  }

  /** `Integer.parseInt(String)` in radix 10, with ASCII digits; `None` stands for the
      `NumberFormatException` it throws. */
  function ParseInt(s: string): (r: Option<int>)
    ensures r.Some? ==> IntMin <= r.value <= IntMax
  {
    if s == [] then None
    else
      var digits := if s[0] == '-' || s[0] == '+' then s[1..] else s;
      if digits == [] || !AllDigits(digits) then None
      else
        var v: int := if s[0] == '-' then -(DigitsValue(digits) as int) else DigitsValue(digits);
        if IntMin <= v <= IntMax then Some(v) else None
  }

  lemma {:induction false} DigitsValueOfNatToString(n: nat)
    ensures DigitsValue(NatToString(n)) == n
  {
    if n >= 10 {
      var s := NatToString(n);
      assert s[..|s| - 1] == NatToString(n / 10);
      DigitsValueOfNatToString(n / 10);
    }
  }

  /** `Integer.parseInt` reads back what `Integer.toString` writes. */
  lemma ParseIntOfIntToString(n: int)
    requires IntMin <= n <= IntMax
    ensures ParseInt(IntToString(n)) == Some(n)
  {
    var s := IntToString(n);
    if n < 0 {
      var d := NatToString(-n);
      assert s == "-" + d && s[0] == '-';
      assert s[1..] == d;
      DigitsValueOfNatToString(-n);
      assert ParseInt(s) == Some(-(DigitsValue(d) as int));
    } else {
      var d := NatToString(n);
      assert s == d && IsDigit(d[0]);
      DigitsValueOfNatToString(n);
      assert ParseInt(s) == Some(DigitsValue(d));
    }
  }
}
