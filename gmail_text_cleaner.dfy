/**
 * `GmailTextCleaner`: turns a raw Gmail body into embedding-friendly text. HTML is
 * reduced to text, quoted replies and forwards are cut off, and whitespace is normalised.
 *
 * The regular expressions used by `replaceAll` and `Matcher.find` are not interpreted:
 * they are named by `Pattern`, and a `RegexEngine` supplies what each one does. The only
 * thing assumed of the engine is that a match starts inside the text. The two
 * whitespace-collapsing rewrites, the entity decoding and the hand-written scanners are
 * modelled exactly.
 */
module GmailTextCleaner {
  import opened Wrappers
  import opened JavaText

  // ---- regular expressions, left abstract -----------------------------------

  /** The regular expressions of the cleaner, one constructor per expression. */
  datatype Pattern =
    | StyleBlock       // a `<style ...>` element and its content, case-insensitive, across lines
    | ScriptBlock      // a `<script ...>` element and its content
    | HeadBlock        // a `<head ...>` element and its content
    | LineBreakTag     // `<br>`, `<br/>`, `<br />`, case-insensitive
    | ParagraphClose   // `</p>`
    | DivClose         // `</div>`
    | ListItemClose    // `</li>`
    | RowClose         // `</tr>`
    | HeadingClose     // `</h1>` .. `</h6>`
    | AnyTag           // any remaining `<...>` tag
    | MediaBlock       // a CSS `@media ... { ... }` block
    | SelectorRule     // a `.name { ... }` or `#name { ... }` rule
    | GenericRule      // a `name { ... }` rule
    | CssPunctuation   // a run of three or more of `;`, `:`, `{`, `}`
    | OnWroteLine      // a whole line `On ... wrote:`, case-insensitive, line by line
    | OnWroteAnywhere  // a newline, then `On ... wrote:` and a newline, case-insensitive
    | HeaderLine       // a whole line `From:`, `Sent:`, `To:` or `Subject:` with a value

  /** What `String.replaceAll` and `Matcher.find` do for each pattern: `replaceAll(p, s, x)`
      rewrites every match of `p` in `s` into `x`; `find(p, s)` is the offset of the first
      match of `p` in `s`, or -1. */
  datatype RegexEngine = RegexEngine(replaceAll: (Pattern, string, string) -> string, find: (Pattern, string) -> int)

  /** A match starts inside the text (or at its end). */
  ghost predicate ValidEngine(e: RegexEngine) {
    forall p, s :: -1 <= e.find(p, s) <= |s|
  }

  /** The replacement text of each rewrite. */
  function Replacement(p: Pattern): string {
    match p
    case LineBreakTag | ParagraphClose | DivClose | ListItemClose | RowClose | HeadingClose => "\n"
    case _ => " "
  }

  /** The rewrites `ps`, applied in order. */
  function Rewrite(e: RegexEngine, ps: seq<Pattern>, s: string): string
    decreases |ps|
  {
    if ps == [] then s else Rewrite(e, ps[1..], e.replaceAll(ps[0], s, Replacement(ps[0])))
  }

  /** The tag rewrites of `htmlToText`: non-content blocks out, line-breaking tags to
      newlines, all other tags to spaces. */
  const TagRewrites: seq<Pattern> :=
    [StyleBlock, ScriptBlock, HeadBlock, LineBreakTag, ParagraphClose, DivClose, ListItemClose,
     RowClose, HeadingClose, AnyTag]

  /** The rewrites of `stripCssLikeNoise`. */
  const CssNoiseRewrites: seq<Pattern> := [MediaBlock, SelectorRule, GenericRule, CssPunctuation]

  /** `indexOfRegexLine` and `indexOfRegex`: -1 on empty text, otherwise the first match. */
  function FindIn(e: RegexEngine, p: Pattern, s: string): (r: int)
    requires ValidEngine(e)
    ensures -1 <= r <= |s|
    ensures s == [] ==> r == -1
  {
    if s == [] then -1 else e.find(p, s)
  }

  // ---- HTML sniffing ----------------------------------------------------------

  /** `looksLikeHtml`: the lower-cased text contains an opening `html`, `body`, `div` or `br`
      tag, or contains `<`, `>` and `</` all three. */
  function LooksLikeHtml(s: string): (b: bool)
    ensures var lower := ToLower(s);
      b <==> (Occurs(lower, "<html") || Occurs(lower, "<body") || Occurs(lower, "<div") || Occurs(lower, "<br")
              || (Occurs(lower, "<") && Occurs(lower, ">") && Occurs(lower, "</")))
  {
    var lower := ToLower(s);
    Contains(lower, "<html") || Contains(lower, "<body") || Contains(lower, "<div") || Contains(lower, "<br")
    || (Contains(lower, "<") && Contains(lower, ">") && Contains(lower, "</"))
  }

  // ---- entity decoding -----------------------------------------------------------

  /** The entity decoding of `htmlToText`, in its order: `&amp;` is decoded after `&lt;` and
      `&gt;` but before `&quot;` and `&#39;`. */
  function DecodeEntities(s: string): string {
    Replace(Replace(Replace(Replace(Replace(Replace(s, "&nbsp;", " "), "&lt;", "<"), "&gt;", ">"),
      "&amp;", "&"), "&quot;", "\""), "&#39;", "'")
  }

  /** Every entity starts with `&`, so text without `&` has none to replace. */
  lemma NoAmpersandNoEntity(s: string, entity: string)
    requires '&' !in s && entity != [] && entity[0] == '&'
    ensures !Occurs(s, entity)
  {
    forall i | 0 <= i <= |s| - |entity| ensures !OccursAt(s, entity, i) {
      assert i < |s| ==> s[i] in s;
    }
  }

  /** Text without `&` is left alone by the decoding. */
  lemma DecodeWithoutAmpersand(s: string)
    requires '&' !in s
    ensures DecodeEntities(s) == s
  {
    NoAmpersandNoEntity(s, "&nbsp;");
    ReplaceAbsent(s, "&nbsp;", " ");
    NoAmpersandNoEntity(s, "&lt;");
    ReplaceAbsent(s, "&lt;", "<");
    NoAmpersandNoEntity(s, "&gt;");
    ReplaceAbsent(s, "&gt;", ">");
    NoAmpersandNoEntity(s, "&amp;");
    ReplaceAbsent(s, "&amp;", "&");
    NoAmpersandNoEntity(s, "&quot;");
    ReplaceAbsent(s, "&quot;", "\"");
    NoAmpersandNoEntity(s, "&#39;");
    ReplaceAbsent(s, "&#39;", "'");
  }

  /** The decoding is a single pass: `&amp;lt;` becomes `&lt;` and not `<`, because `&lt;`
      is decoded before `&amp;` has produced it. */
  lemma AmpersandDecodedOnce()
    ensures DecodeEntities("&amp;lt;") == "&lt;"
  {
    var s := "&amp;lt;";
    OnlyAmpersandAtStart(s, "&nbsp;");
    ReplaceAbsent(s, "&nbsp;", " ");
    OnlyAmpersandAtStart(s, "&lt;");
    ReplaceAbsent(s, "&lt;", "<");
    OnlyAmpersandAtStart(s, "&gt;");
    ReplaceAbsent(s, "&gt;", ">");
    assert s[..5] == "&amp;" && s[5..] == "lt;";
    assert ReplaceNonEmpty(s, "&amp;", "&") == "&lt;";
    assert ReplaceNonEmpty("&lt;", "&quot;", "\"") == "&lt;";
    assert ReplaceNonEmpty("&lt;", "&#39;", "'") == "&lt;";
  }

  /** In `&amp;lt;` only offset 0 holds `&`, and an entity other than `&amp;` is not there. */
  lemma OnlyAmpersandAtStart(s: string, entity: string)
    requires s == "&amp;lt;" && |entity| >= 2 && entity[0] == '&' && entity[1] != 'a'
    ensures !Occurs(s, entity)
  {
  }

  // ---- whitespace normalisation ----------------------------------------------------

  /** The character classes whose runs are collapsed. */
  datatype CharClass = Newlines | SpacesAndTabs

  predicate InClass(c: char, k: CharClass) {
    match k
    case Newlines => c == '\n'
    case SpacesAndTabs => c == ' ' || c == '\t'
  }

  /** The shortest run that is collapsed: `\n{3,}` and `[ \t]{2,}`. */
  function MinRun(k: CharClass): nat {
    match k
    case Newlines => 3
    case SpacesAndTabs => 2
  }

  /** What a collapsed run becomes. */
  function Collapsed(k: CharClass): string {
    match k
    case Newlines => "\n\n"
    case SpacesAndTabs => " "
  }

  /** The number of leading characters of class `k`. */
  function RunLength(s: string, k: CharClass): (n: nat)
    ensures n <= |s|
    ensures forall i :: 0 <= i < n ==> InClass(s[i], k)
    ensures n < |s| ==> !InClass(s[n], k)
  {
    if s == [] || !InClass(s[0], k) then 0 else 1 + RunLength(s[1..], k)
  }

  /** `replaceAll` of a greedy run pattern: every maximal run of class `k` that is at least
      `MinRun(k)` long becomes `Collapsed(k)`; everything else is kept. */
  function Collapse(s: string, k: CharClass): string
    decreases |s|
  {
    if s == [] then []
    else if !InClass(s[0], k) then [s[0]] + Collapse(s[1..], k)
    else
      var n := RunLength(s, k);
      (if n >= MinRun(k) then Collapsed(k) else s[..n]) + Collapse(s[n..], k)
  }

  /** `text.replaceAll("\n{3,}", "\n\n")` */
  function CollapseNewlines(s: string): string {
    Collapse(s, Newlines)
  }

  /** `text.replaceAll("[ \t]{2,}", " ")` */
  function CollapseBlanks(s: string): string {
    Collapse(s, SpacesAndTabs)
  }

  predicate IsSpaceOrTab(c: char) {
    c == ' ' || c == '\t'
  }

  /** No three newlines in a row. */
  predicate NoTripleNewline(s: string) {
    forall i :: 0 <= i < |s| - 2 ==> !(s[i] == '\n' && s[i + 1] == '\n' && s[i + 2] == '\n')
  }

  /** No two spaces or tabs in a row. */
  predicate NoDoubleBlank(s: string) {
    forall i :: 0 <= i < |s| - 1 ==> !(IsSpaceOrTab(s[i]) && IsSpaceOrTab(s[i + 1]))
  }

  /** A character outside the class leads to itself. */
  lemma CollapseOther(s: string, k: CharClass)
    requires s != [] && !InClass(s[0], k)
    ensures Collapse(s, k) == [s[0]] + Collapse(s[1..], k)
  {
  }

  /** A run of the class leads to its collapsed form, or to itself if it is short. */
  lemma CollapseRun(s: string, k: CharClass, n: nat, seg: string)
    requires s != [] && InClass(s[0], k) && n == RunLength(s, k)
    requires seg == if n >= MinRun(k) then Collapsed(k) else s[..n]
    ensures 1 <= n <= |s| && 1 <= |seg| < MinRun(k)
    ensures forall i :: 0 <= i < |seg| ==> InClass(seg[i], k)
    ensures Collapse(s, k) == seg + Collapse(s[n..], k)
  {
  }

  /** The result starts with a character of the class exactly when the input does, and with
      the input's first character when that is outside the class. */
  lemma CollapseHead(s: string, k: CharClass)
    requires s != []
    ensures Collapse(s, k) != []
    ensures InClass(Collapse(s, k)[0], k) <==> InClass(s[0], k)
    ensures !InClass(s[0], k) ==> Collapse(s, k)[0] == s[0]
  {
    if InClass(s[0], k) {
      var n := RunLength(s, k);
      CollapseRun(s, k, n, if n >= MinRun(k) then Collapsed(k) else s[..n]);
    }
  }

  /** Collapsing brings in no character that is neither in the input nor in the class. */
  lemma {:induction false} CollapseKeepsOut(s: string, k: CharClass, c: char)
    requires !InClass(c, k) && c !in s
    ensures c !in Collapse(s, k)
    decreases |s|
  {
    if s != [] {
      if !InClass(s[0], k) {
        CollapseOther(s, k);
        assert c !in s[1..];
        CollapseKeepsOut(s[1..], k, c);
      } else {
        var n := RunLength(s, k);
        var seg := if n >= MinRun(k) then Collapsed(k) else s[..n];
        CollapseRun(s, k, n, seg);
        assert c !in s[n..];
        CollapseKeepsOut(s[n..], k, c);
        assert c !in seg;
      }
    }
  }

  lemma ConsNoTriple(c: char, x: string)
    requires NoTripleNewline(x)
    requires !(c == '\n' && |x| >= 2 && x[0] == '\n' && x[1] == '\n')
    ensures NoTripleNewline([c] + x)
  {
    var s := [c] + x;
    forall i | 0 <= i < |s| - 2 ensures !(s[i] == '\n' && s[i + 1] == '\n' && s[i + 2] == '\n') {
      if i > 0 {
        assert s[i] == x[i - 1] && s[i + 1] == x[i] && s[i + 2] == x[i + 1];
      }
    }
  }

  lemma ConsNoDouble(c: char, x: string)
    requires NoDoubleBlank(x)
    requires !(IsSpaceOrTab(c) && x != [] && IsSpaceOrTab(x[0]))
    ensures NoDoubleBlank([c] + x)
  {
    var s := [c] + x;
    forall i | 0 <= i < |s| - 1 ensures !(IsSpaceOrTab(s[i]) && IsSpaceOrTab(s[i + 1])) {
      if i > 0 {
        assert s[i] == x[i - 1] && s[i + 1] == x[i];
      }
    }
  }

  /** At most two newlines before a non-newline make no triple. */
  lemma NewlinesThenNoTriple(u: string, x: string)
    requires |u| <= 2 && forall i :: 0 <= i < |u| ==> u[i] == '\n'
    requires x == [] || x[0] != '\n'
    requires NoTripleNewline(x)
    ensures NoTripleNewline(u + x)
  {
    var s := u + x;
    forall i | 0 <= i < |s| - 2 ensures !(s[i] == '\n' && s[i + 1] == '\n' && s[i + 2] == '\n') {
      if i >= |u| {
        assert s[i] == x[i - |u|] && s[i + 1] == x[i - |u| + 1] && s[i + 2] == x[i - |u| + 2];
      } else {
        assert s[|u|] == x[0];
      }
    }
  }

  /** Newlines never start or end a pair of blanks. */
  lemma NewlinesThenNoDouble(u: string, x: string)
    requires forall i :: 0 <= i < |u| ==> u[i] == '\n'
    requires NoDoubleBlank(x)
    ensures NoDoubleBlank(u + x)
  {
    var s := u + x;
    forall i | 0 <= i < |s| - 1 ensures !(IsSpaceOrTab(s[i]) && IsSpaceOrTab(s[i + 1])) {
      if i >= |u| {
        assert s[i] == x[i - |u|] && s[i + 1] == x[i - |u| + 1];
      } else {
        assert s[i] == u[i];
      }
    }
  }

  /** Collapsing newline runs leaves no three newlines in a row. */
  lemma {:induction false} CollapseNewlinesNoTriple(s: string)
    ensures NoTripleNewline(CollapseNewlines(s))
    decreases |s|
  {
    if s != [] {
      if s[0] != '\n' {
        CollapseOther(s, Newlines);
        CollapseNewlinesNoTriple(s[1..]);
        ConsNoTriple(s[0], Collapse(s[1..], Newlines));
      } else {
        var n := RunLength(s, Newlines);
        var seg := if n >= 3 then "\n\n" else s[..n];
        CollapseRun(s, Newlines, n, seg);
        CollapseNewlinesNoTriple(s[n..]);
        if n < |s| {
          CollapseHead(s[n..], Newlines);
        }
        NewlinesThenNoTriple(seg, Collapse(s[n..], Newlines));
      }
    }
  }

  /** Collapsing blank runs leaves no two blanks in a row. */
  lemma {:induction false} CollapseBlanksNoDouble(s: string)
    ensures NoDoubleBlank(CollapseBlanks(s))
    decreases |s|
  {
    if s != [] {
      CollapseBlanksNoDouble(s[1..]);
      if !IsSpaceOrTab(s[0]) {
        CollapseOther(s, SpacesAndTabs);
        ConsNoDouble(s[0], Collapse(s[1..], SpacesAndTabs));
      } else {
        var n := RunLength(s, SpacesAndTabs);
        var seg := if n >= 2 then " " else s[..n];
        CollapseRun(s, SpacesAndTabs, n, seg);
        CollapseBlanksNoDouble(s[n..]);
        if n < |s| {
          CollapseHead(s[n..], SpacesAndTabs);
        }
        assert seg == [seg[0]];
        ConsNoDouble(seg[0], Collapse(s[n..], SpacesAndTabs));
      }
    }
  }

  /** Collapsing blank runs keeps newlines as they are, so it makes no triple. */
  lemma {:induction false} CollapseBlanksKeepsNoTriple(s: string)
    requires NoTripleNewline(s)
    ensures NoTripleNewline(CollapseBlanks(s))
    decreases |s|
  {
    if s != [] {
      assert NoTripleNewline(s[1..]) by {
        forall i | 0 <= i < |s[1..]| - 2 ensures !(s[1..][i] == '\n' && s[1..][i + 1] == '\n' && s[1..][i + 2] == '\n') {
          assert s[1..][i] == s[i + 1] && s[1..][i + 1] == s[i + 2] && s[1..][i + 2] == s[i + 3];
        }
      }
      if !IsSpaceOrTab(s[0]) {
        CollapseOther(s, SpacesAndTabs);
        CollapseBlanksKeepsNoTriple(s[1..]);
        var x := Collapse(s[1..], SpacesAndTabs);
        if s[0] == '\n' && |x| >= 2 && x[0] == '\n' && x[1] == '\n' {
          CollapseHead(s[1..], SpacesAndTabs);
          assert s[1] == '\n';
          CollapseOther(s[1..], SpacesAndTabs);
          assert s[1..][1..] == s[2..];
          CollapseHead(s[2..], SpacesAndTabs);
          assert false;
        }
        ConsNoTriple(s[0], x);
      } else {
        var n := RunLength(s, SpacesAndTabs);
        var seg := if n >= 2 then " " else s[..n];
        CollapseRun(s, SpacesAndTabs, n, seg);
        assert NoTripleNewline(s[n..]) by {
          forall i | 0 <= i < |s[n..]| - 2 ensures !(s[n..][i] == '\n' && s[n..][i + 1] == '\n' && s[n..][i + 2] == '\n') {
            assert s[n..][i] == s[i + n] && s[n..][i + 1] == s[i + n + 1] && s[n..][i + 2] == s[i + n + 2];
          }
        }
        CollapseBlanksKeepsNoTriple(s[n..]);
        assert seg == [seg[0]];
        ConsNoTriple(seg[0], Collapse(s[n..], SpacesAndTabs));
      }
    }
  }

  /** Collapsing newline runs keeps blanks as they are, so it makes no pair of blanks. */
  lemma {:induction false} CollapseNewlinesKeepsNoDouble(s: string)
    requires NoDoubleBlank(s)
    ensures NoDoubleBlank(CollapseNewlines(s))
    decreases |s|
  {
    if s != [] {
      if s[0] != '\n' {
        assert NoDoubleBlank(s[1..]) by {
          forall i | 0 <= i < |s[1..]| - 1 ensures !(IsSpaceOrTab(s[1..][i]) && IsSpaceOrTab(s[1..][i + 1])) {
            assert s[1..][i] == s[i + 1] && s[1..][i + 1] == s[i + 2];
          }
        }
        CollapseOther(s, Newlines);
        CollapseNewlinesKeepsNoDouble(s[1..]);
        var x := Collapse(s[1..], Newlines);
        if IsSpaceOrTab(s[0]) && x != [] && IsSpaceOrTab(x[0]) {
          CollapseHead(s[1..], Newlines);
          assert false;
        }
        ConsNoDouble(s[0], x);
      } else {
        var n := RunLength(s, Newlines);
        var seg := if n >= 3 then "\n\n" else s[..n];
        CollapseRun(s, Newlines, n, seg);
        assert NoDoubleBlank(s[n..]) by {
          forall i | 0 <= i < |s[n..]| - 1 ensures !(IsSpaceOrTab(s[n..][i]) && IsSpaceOrTab(s[n..][i + 1])) {
            assert s[n..][i] == s[i + n] && s[n..][i + 1] == s[i + n + 1];
          }
        }
        CollapseNewlinesKeepsNoDouble(s[n..]);
        NewlinesThenNoDouble(seg, Collapse(s[n..], Newlines));
      }
    }
  }

  /** The properties above hold of every substring. */
  lemma SliceKeeps(s: string, a: nat, b: nat)
    requires a <= b <= |s|
    ensures NoTripleNewline(s) ==> NoTripleNewline(s[a..b])
    ensures NoDoubleBlank(s) ==> NoDoubleBlank(s[a..b])
    ensures '\r' !in s ==> '\r' !in s[a..b]
  {
    var t := s[a..b];
    assert forall i :: 0 <= i < |t| ==> t[i] == s[a + i];
  }

  /** `strip` keeps the three whitespace guarantees and leaves an already stripped text. */
  lemma StripKeeps(s: string)
    ensures Strip(Strip(s)) == Strip(s)
    ensures NoTripleNewline(s) ==> NoTripleNewline(Strip(s))
    ensures NoDoubleBlank(s) ==> NoDoubleBlank(Strip(s))
    ensures '\r' !in s ==> '\r' !in Strip(s)
  {
    StripIdempotent(s);
    var a := StripSlice(s);
    SliceKeeps(s, a, a + |Strip(s)|);
  }

  // ---- scanners ------------------------------------------------------------------

  /** Offset `i` starts a line: it is 0 or follows a newline. */
  predicate LineStart(text: string, i: nat) {
    i == 0 || (i <= |text| && text[i - 1] == '\n')
  }

  /** The end of the line starting at `i`: the next newline, or the end of the text. */
  function LineEnd(text: string, i: nat): (e: nat)
    requires i <= |text|
    ensures i <= e <= |text|
    ensures e < |text| ==> text[e] == '\n'
    ensures forall j :: i <= j < e ==> text[j] != '\n'
  {
    var e := IndexOfChar(text, '\n', i);
    if e < 0 then |text| else e
  }

  /** The line starting at `i`, without its newline. */
  function LineAt(text: string, i: nat): string
    requires i <= |text|
  {
    text[i..LineEnd(text, i)]
  }

  /** The first line at or after the line start `idx` that starts with `prefix` (lines are
      examined while their start is inside the text), or -1. */
  function LineSearch(text: string, prefix: string, idx: nat): (r: int)
    requires idx >= |text| || LineStart(text, idx)
    ensures r == -1 || (idx <= r < |text| && LineStart(text, r) && StartsWith(LineAt(text, r), prefix))
    ensures forall i :: idx <= i < |text| && (r == -1 || i < r) && LineStart(text, i) ==> !StartsWith(LineAt(text, i), prefix)
    decreases |text| - idx
  {
    if idx >= |text| then -1
    else if StartsWith(LineAt(text, idx), prefix) then idx
    else LineSearch(text, prefix, LineEnd(text, idx) + 1)
  }

  /** `indexOfLineStartingWith` */
  method IndexOfLineStartingWith(text: string, prefix: string) returns (r: int)
    ensures r == LineSearch(text, prefix, 0)
  {
    var idx := 0;
    while idx < |text|
      invariant idx >= |text| || LineStart(text, idx)
      invariant LineSearch(text, prefix, idx) == LineSearch(text, prefix, 0)
      decreases |text| - idx
    {
      var lineEnd := IndexOfChar(text, '\n', idx);
      if lineEnd < 0 {
        lineEnd := |text|;
      }
      var line := text[idx..lineEnd];
      if StartsWith(line, prefix) {
        return idx;
      }
      idx := lineEnd + 1;
    }
    return -1;
  }

  lemma ToLowerSlice(s: string, a: nat, b: nat)
    requires a <= b <= |s|
    ensures ToLower(s)[a..b] == ToLower(s[a..b])
  {
  }

  /** `needle` occurs in `haystack` at offset `i` when ASCII letters are compared without case. */
  predicate MatchesIgnoringCase(haystack: string, needle: string, i: int) {
    0 <= i && i + |needle| <= |haystack| && ToLower(haystack[i..i + |needle|]) == ToLower(needle)
  }

  /** `indexOfIgnoreCase`: the first offset at which `needle` occurs in `haystack` when ASCII
      letters are compared without case, or -1. */
  function IndexOfIgnoreCase(haystack: string, needle: string): (r: int)
    ensures r == -1 <==> !Occurs(ToLower(haystack), ToLower(needle))
    ensures r != -1 ==> MatchesIgnoringCase(haystack, needle, r)
    ensures forall i :: (r == -1 || i < r) ==> !MatchesIgnoringCase(haystack, needle, i)
  {
    var r := IndexOf(ToLower(haystack), ToLower(needle));
    IgnoreCaseMatches(haystack, needle, r);
    r
  }

  /** Matching the lower-cased texts is matching slices without case. */
  lemma IgnoreCaseMatches(haystack: string, needle: string, r: int)
    requires r == IndexOf(ToLower(haystack), ToLower(needle))
    ensures r != -1 ==> MatchesIgnoringCase(haystack, needle, r)
    ensures forall i :: (r == -1 || i < r) ==> !MatchesIgnoringCase(haystack, needle, i)
  {
    if r != -1 {
      ToLowerSlice(haystack, r, r + |needle|);
    }
    forall i | r == -1 || i < r
      ensures !MatchesIgnoringCase(haystack, needle, i)
    {
      if 0 <= i && i + |needle| <= |haystack| {
        ToLowerSlice(haystack, i, i + |needle|);
        assert !OccursAt(ToLower(haystack), ToLower(needle), i);
      }
    }
  }

  // ---- quoted-reply cutting ---------------------------------------------------------

  /** How each cut of `stripQuotedReply` finds where to cut. */
  datatype Cutter =
    | LineStartingWith(prefix: string)
    | Regex(pattern: Pattern)
    | IgnoringCase(marker: string)

  /** The cuts of `stripQuotedReply`, in their order. */
  const ReplyCuts: seq<Cutter> :=
    [LineStartingWith(">"), Regex(OnWroteLine), Regex(OnWroteAnywhere),
     IgnoringCase("-----Original Message-----"), IgnoringCase("-----Forwarded message-----"),
     Regex(HeaderLine)]

  /** Where cutter `c` cuts `s`, or -1. */
  function CutPoint(e: RegexEngine, c: Cutter, s: string): (r: int)
    requires ValidEngine(e)
    ensures -1 <= r <= |s|
  {
    match c
    case LineStartingWith(prefix) => LineSearch(s, prefix, 0)
    case Regex(p) => FindIn(e, p, s)
    case IgnoringCase(marker) => IndexOfIgnoreCase(s, marker)
  }

  /** `if (idx >= 0) out = out.substring(0, idx)` */
  function Cut(s: string, idx: int): string
    requires idx <= |s|
  {
    if idx >= 0 then s[..idx] else s
  }

  /** The cuts `cs`, in order: each later cut looks only at what the earlier ones left. The
      result is always a prefix of the input. */
  function CutAll(e: RegexEngine, cs: seq<Cutter>, s: string): (r: string)
    requires ValidEngine(e)
    ensures |r| <= |s| && r == s[..|r|]
    decreases |cs|
  {
    if cs == [] then s
    else
      var t := Cut(s, CutPoint(e, cs[0], s));
      var r := CutAll(e, cs[1..], t);
      assert t == s[..|t|];
      assert r == s[..|t|][..|r|];
      r
  }

  /** One cut of the chain. */
  lemma CutStep(e: RegexEngine, c: Cutter, rest: seq<Cutter>, s: string, t: string)
    requires ValidEngine(e)
    requires t == Cut(s, CutPoint(e, c, s))
    ensures CutAll(e, [c] + rest, s) == CutAll(e, rest, t)
  {
    assert ([c] + rest)[1..] == rest;
  }

  /** Text after the first cut point never comes back: later cuts only shorten further. */
  lemma FirstCutBounds(e: RegexEngine, cs: seq<Cutter>, s: string)
    requires ValidEngine(e) && cs != []
    ensures CutPoint(e, cs[0], s) >= 0 ==> |CutAll(e, cs, s)| <= CutPoint(e, cs[0], s)
    ensures CutPoint(e, cs[0], s) == -1 ==> CutAll(e, cs, s) == CutAll(e, cs[1..], s)
  {
  }

  /** One cut of `stripQuotedReply`: find where `c` cuts and keep what is before it. */
  method ApplyCut(e: RegexEngine, c: Cutter, s: string) returns (t: string)
    requires ValidEngine(e)
    ensures t == Cut(s, CutPoint(e, c, s))
  {
    var idx: int;
    match c {
      case LineStartingWith(prefix) =>
        idx := IndexOfLineStartingWith(s, prefix);
      case Regex(p) =>
        idx := FindIn(e, p, s);
      case IgnoringCase(marker) =>
        idx := IndexOfIgnoreCase(s, marker);
    }
    t := s;
    if idx >= 0 {
      t := s[..idx];
    }
  }

  /** `stripQuotedReply` */
  method StripQuotedReply(e: RegexEngine, text: string) returns (r: string)
    requires ValidEngine(e)
    ensures IsBlank(text) ==> r == []
    ensures !IsBlank(text) ==> r == Strip(CutAll(e, ReplyCuts, text))
    ensures exists k :: 0 <= k <= |text| && r == Strip(text[..k])
  {
    if IsBlank(text) {
      assert [] == Strip(text[..0]);
      return [];
    }
    ghost var cuts5 := [Regex(HeaderLine)];
    ghost var cuts4 := [IgnoringCase("-----Forwarded message-----")] + cuts5;
    ghost var cuts3 := [IgnoringCase("-----Original Message-----")] + cuts4;
    ghost var cuts2 := [Regex(OnWroteAnywhere)] + cuts3;
    ghost var cuts1 := [Regex(OnWroteLine)] + cuts2;
    assert [LineStartingWith(">")] + cuts1 == ReplyCuts;
    var out := text;
    out := ApplyCut(e, LineStartingWith(">"), out);
    CutStep(e, LineStartingWith(">"), cuts1, text, out);
    ghost var step1 := out;
    out := ApplyCut(e, Regex(OnWroteLine), out);
    CutStep(e, Regex(OnWroteLine), cuts2, step1, out);
    ghost var step2 := out;
    out := ApplyCut(e, Regex(OnWroteAnywhere), out);
    CutStep(e, Regex(OnWroteAnywhere), cuts3, step2, out);
    ghost var step3 := out;
    out := ApplyCut(e, IgnoringCase("-----Original Message-----"), out);
    CutStep(e, IgnoringCase("-----Original Message-----"), cuts4, step3, out);
    ghost var step4 := out;
    out := ApplyCut(e, IgnoringCase("-----Forwarded message-----"), out);
    CutStep(e, IgnoringCase("-----Forwarded message-----"), cuts5, step4, out);
    ghost var step5 := out;
    out := ApplyCut(e, Regex(HeaderLine), out);
    CutStep(e, Regex(HeaderLine), [], step5, out);
    assert out == text[..|out|];
    r := Strip(out);
  }

  // ---- the cleaner ---------------------------------------------------------------------

  /** `stripCssLikeNoise` */
  method StripCssLikeNoise(e: RegexEngine, text: string) returns (r: string)
    ensures IsBlank(text) ==> r == []
    ensures !IsBlank(text) ==> r == Rewrite(e, CssNoiseRewrites, text)
  {
    if IsBlank(text) {
      return [];
    }
    var out := text;
    out := e.replaceAll(MediaBlock, out, " ");
    out := e.replaceAll(SelectorRule, out, " ");
    out := e.replaceAll(GenericRule, out, " ");
    out := e.replaceAll(CssPunctuation, out, " ");
    return out;
  }

  /** What `htmlToText` returns: the tag rewrites, the entity decoding, the CSS-noise
      rewrites (skipped on a blank text), the two collapses and a strip. */
  function HtmlText(e: RegexEngine, html: string): string {
    if IsBlank(html) then []
    else
      var decoded := DecodeEntities(Rewrite(e, TagRewrites, html));
      var css := if IsBlank(decoded) then [] else Rewrite(e, CssNoiseRewrites, decoded);
      Strip(CollapseNewlines(CollapseBlanks(css)))
  }

  /** Whatever the rewrites produce, `htmlToText` gives a stripped text with no two blanks
      and no three newlines in a row. */
  lemma HtmlTextWellFormed(e: RegexEngine, html: string)
    ensures var r := HtmlText(e, html);
      Strip(r) == r && NoDoubleBlank(r) && NoTripleNewline(r)
  {
    if !IsBlank(html) {
      var decoded := DecodeEntities(Rewrite(e, TagRewrites, html));
      var css := if IsBlank(decoded) then [] else Rewrite(e, CssNoiseRewrites, decoded);
      CollapseBlanksNoDouble(css);
      CollapseNewlinesKeepsNoDouble(CollapseBlanks(css));
      CollapseNewlinesNoTriple(CollapseBlanks(css));
      StripKeeps(CollapseNewlines(CollapseBlanks(css)));
    }
  }

  /** `htmlToText` */
  method HtmlToText(e: RegexEngine, html: string) returns (r: string)
    ensures r == HtmlText(e, html)
    ensures IsBlank(html) ==> r == []
    ensures Strip(r) == r && NoDoubleBlank(r) && NoTripleNewline(r)
  {
    HtmlTextWellFormed(e, html);
    if IsBlank(html) {
      return [];
    }
    var text := html;
    text := Rewrite(e, TagRewrites, text);
    text := DecodeEntities(text);
    text := StripCssLikeNoise(e, text);
    text := CollapseBlanks(text);
    text := CollapseNewlines(text);
    return Strip(text);
  }

  /** The closing whitespace normalisation of `clean`: carriage returns become newlines,
      then newline runs and blank runs are collapsed, then the text is stripped. */
  function Normalized(s: string): string {
    Strip(CollapseBlanks(CollapseNewlines(ReplaceChar(s, '\r', '\n'))))
  }

  /** The normalised text is stripped and has no carriage return, no three newlines in a
      row and no two blanks in a row. */
  lemma NormalizedWellFormed(s: string)
    ensures var r := Normalized(s);
      Strip(r) == r && '\r' !in r && NoTripleNewline(r) && NoDoubleBlank(r)
  {
    var noReturn := ReplaceChar(s, '\r', '\n');
    CollapseKeepsOut(noReturn, Newlines, '\r');
    CollapseNewlinesNoTriple(noReturn);
    var newlinesDone := CollapseNewlines(noReturn);
    CollapseKeepsOut(newlinesDone, SpacesAndTabs, '\r');
    CollapseBlanksKeepsNoTriple(newlinesDone);
    CollapseBlanksNoDouble(newlinesDone);
    StripKeeps(CollapseBlanks(newlinesDone));
  }

  /** What `clean` returns: the empty text for a null or blank input; otherwise the HTML
      conversion when the text looks like HTML, then the quoted-reply cuts, then the
      whitespace normalisation. */
  function Cleaned(e: RegexEngine, raw: Option<string>): (r: string)
    requires ValidEngine(e)
    ensures Strip(r) == r && '\r' !in r && NoTripleNewline(r) && NoDoubleBlank(r)
  {
    if IsNullOrBlank(raw) then []
    else
      var text := if LooksLikeHtml(raw.value) then HtmlText(e, raw.value) else raw.value;
      var quoted := if IsBlank(text) then [] else Strip(CutAll(e, ReplyCuts, text));
      NormalizedWellFormed(quoted);
      Normalized(quoted)
  }

  /** `clean` */
  method Clean(e: RegexEngine, raw: Option<string>) returns (r: string)
    requires ValidEngine(e)
    ensures r == Cleaned(e, raw)
    ensures IsNullOrBlank(raw) ==> r == []
    ensures Strip(r) == r
    ensures '\r' !in r
    ensures NoTripleNewline(r) && NoDoubleBlank(r)
  {
    if raw.None? || IsBlank(raw.value) {
      return [];
    }
    var text := raw.value;
    if LooksLikeHtml(text) {
      text := HtmlToText(e, text);
    }
    text := StripQuotedReply(e, text);
    text := ReplaceChar(text, '\r', '\n');
    text := CollapseNewlines(text);
    text := CollapseBlanks(text);
    text := Strip(text);
    return text;
  }
}
