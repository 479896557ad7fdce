/**
 * `EmailAgentService`: composes the system and user prompts for a reply draft from
 * the collected context (thread conversation, similar history, business rules) and
 * wraps the model's answer as a draft. The language-model call itself is a parameter.
 */
module EmailAgentService {
  import opened Wrappers
  import opened JavaText

  // ---- records -------------------------------------------------------------------

  /** A `BusinessRule` as the prompt sees it: key, content and the `toString` of its
      update time (each possibly null). */
  datatype BusinessRule = BusinessRule(ruleKey: Option<string>, ruleContent: Option<string>, updatedAt: Option<string>)

  /** The text fields of an `EmailMessage`; the receive time and metadata map do not
      reach the prompt. */
  datatype EmailMessage = EmailMessage(
    id: Option<string>, threadId: Option<string>, subject: Option<string>, from: Option<string>,
    snippet: Option<string>, content: Option<string>)

  /** `EmailContext` */
  datatype EmailContext = EmailContext(
    threadId: Option<string>, currentQuestion: Option<string>,
    threadConversation: seq<EmailMessage>, similarHistory: seq<EmailMessage>,
    businessRules: seq<BusinessRule>)

  /** `PromptParts` and `EmailDraft` */
  datatype PromptParts = PromptParts(systemPrompt: string, userPrompt: string)
  datatype EmailDraft = EmailDraft(subject: string, body: string)

  // ---- helpers ---------------------------------------------------------------------

  /** `nullToEmpty` */
  function NullToEmpty(v: Option<string>): (r: string)
    ensures v.None? ==> r == ""
    ensures v.Some? ==> r == v.value
  {
    v.GetOr("")
  }

  /** String concatenation of a possibly null reference: null prints as "null". */
  function Concatenated(v: Option<string>): (r: string)
    ensures v.None? ==> r == "null"
    ensures v.Some? ==> r == v.value
  {
    v.GetOr("null")
  }

  /** `safe`: the content when it is non-null and not blank, else the snippet, else "". */
  function Safe(content: Option<string>, snippet: Option<string>): (r: string)
    ensures !IsNullOrBlank(content) ==> r == content.value
    ensures IsNullOrBlank(content) ==> r == NullToEmpty(snippet)
  {
    if content.Some? && !IsBlank(content.value) then content.value else NullToEmpty(snippet)
  }

  /** `emptyFallback`: the fallback for a null or blank value. */
  function EmptyFallback(v: Option<string>, fallback: string): (r: string)
    ensures IsNullOrBlank(v) ==> r == fallback
    ensures !IsNullOrBlank(v) ==> r == v.value
  {
    if v.None? || IsBlank(v.value) then fallback else v.value
  }

  /** `Collectors.joining("\n")` */
  function Joining(lines: seq<string>): (r: string)
    ensures lines == [] ==> r == ""
  {
    if lines == [] then "" else JoinLines(lines)
  }

  // ---- blocks ----------------------------------------------------------------------

  /** One rule as a prompt line: `- key: content (updatedAt=ts)`. */
  function RuleLine(rule: BusinessRule): string {
    "- " + Concatenated(rule.ruleKey) + ": " + Concatenated(rule.ruleContent)
      + " (updatedAt=" + Concatenated(rule.updatedAt) + ")"
  }

  /** One thread or history message as a prompt line. */
  function MessageLine(m: EmailMessage): string {
    "- " + Safe(m.content, m.snippet)
  }

  function RuleLines(rules: seq<BusinessRule>): (r: seq<string>)
    ensures |r| == |rules|
    ensures forall i :: 0 <= i < |rules| ==> r[i] == RuleLine(rules[i])
  {
    if rules == [] then [] else [RuleLine(rules[0])] + RuleLines(rules[1..])
  }

  function MessageLines(ms: seq<EmailMessage>): (r: seq<string>)
    ensures |r| == |ms|
    ensures forall i :: 0 <= i < |ms| ==> r[i] == MessageLine(ms[i])
  {
    if ms == [] then [] else [MessageLine(ms[0])] + MessageLines(ms[1..])
  }

  // ---- prompts ---------------------------------------------------------------------

  /** The fixed system prompt: role, the rule that the latest business rules win, and
      the output requirements. */
  const SystemPrompt: string :=
    "Role: You are a professional customer service manager.\n"
    + "\n"
    + "You MUST follow these constraints in priority order:\n"
    + "1) [Highest Priority] If [Latest Business Rules] conflict with [Past Email History], ALWAYS follow [Latest Business Rules].\n"
    + "   - Never mention outdated prices/policies when a newer rule exists.\n"
    + "2) Keep a natural conversation flow and match the tone of the current email thread.\n"
    + "\n"
    + "Output requirements:\n"
    + "- Return ONLY the draft body text (no markdown fences).\n"
    + "- The output must be directly usable as a Gmail Draft body.\n"

  const TaskSection: string := "[Task]\nWrite a reply draft to the user's email.\n\n[Current Question]\n"
  const ThreadTitle: string := "\n\n[Current Thread Conversation]\n"
  const SimilarTitle: string := "\n\n[Similar Past Email History]\n"
  const RulesTitle: string := "\n\n[Latest Business Rules]\n"
  const InstructionsSection: string :=
    "\n\n[Instructions]\n"
    + "- Use Latest Business Rules as the source of truth.\n"
    + "- Keep the tone consistent with the current thread.\n"
    + "- Be concise, clear, and professional.\n"

  const NoThreadPlaceholder: string := "(no thread conversation found)"
  const NoSimilarPlaceholder: string := "(no similar history found)"
  const NoRulesPlaceholder: string := "(no business rules found)"

  /** The user prompt template with its four slots filled in order. */
  function UserPrompt(question: string, thread: string, similar: string, rules: string): string {
    Concat(UserPromptParts(question, thread, similar, rules))
  }

  /** The template text and the slots, in the order they are printed. */
  function UserPromptParts(question: string, thread: string, similar: string, rules: string): seq<string> {
    [TaskSection, question, ThreadTitle, thread, SimilarTitle, similar, RulesTitle, rules, InstructionsSection]
  }

  /** The parts written one after the other. */
  function Concat(parts: seq<string>): string {
    if parts == [] then "" else parts[0] + Concat(parts[1..])
  }

  /** A section body: its joined lines, or the placeholder when there are none. */
  function Section(lines: seq<string>, placeholder: string): string {
    EmptyFallback(Some(Joining(lines)), placeholder)
  }

  /** `buildPrompts` */
  function BuildPrompts(ctx: EmailContext): (p: PromptParts)
    ensures p.systemPrompt == SystemPrompt
  {
    PromptParts(
      SystemPrompt,
      UserPrompt(
        NullToEmpty(ctx.currentQuestion),
        Section(MessageLines(ctx.threadConversation), NoThreadPlaceholder),
        Section(MessageLines(ctx.similarHistory), NoSimilarPlaceholder),
        Section(RuleLines(ctx.businessRules), NoRulesPlaceholder)))
  }

  /** The draft `generateDraft` returns for the model's answer `body`. */
  function GenerateDraft(subject: Option<string>, body: Option<string>): (d: EmailDraft)
    ensures subject.Some? ==> d.subject == subject.value
    ensures subject.None? ==> d.subject == ""
    ensures body.Some? ==> d.body == body.value
    ensures body.None? ==> d.body == ""
  {
    EmailDraft(NullToEmpty(subject), NullToEmpty(body))
  }

  // ---- properties ------------------------------------------------------------------

  /** Where line `i` starts in the joined lines. */
  function LineOffset(lines: seq<string>, i: nat): nat
    requires i < |lines|
  {
    if i == 0 then 0 else |lines[0]| + 1 + LineOffset(lines[1..], i - 1)
  }

  /** Every line occurs in the joined text at its offset, followed by a newline unless it
      is the last. */
  lemma {:induction false} JoinedLineAt(lines: seq<string>, i: nat)
    requires i < |lines|
    ensures OccursAt(JoinLines(lines), lines[i], LineOffset(lines, i))
    ensures i + 1 < |lines| ==>
      LineOffset(lines, i) + |lines[i]| < |JoinLines(lines)|
      && JoinLines(lines)[LineOffset(lines, i) + |lines[i]|] == '\n'
    decreases i
  {
    var j := JoinLines(lines);
    if |lines| == 1 {
      assert j == lines[0];
    } else {
      var rest := JoinLines(lines[1..]);
      assert j == lines[0] + "\n" + rest;
      if i == 0 {
        assert j[..|lines[0]|] == lines[0];
      } else {
        JoinedLineAt(lines[1..], i - 1);
        assert lines[1..][i - 1] == lines[i];
        ShiftedLine(lines[0], rest, lines[i], LineOffset(lines[1..], i - 1));
      }
    }
  }

  /** An occurrence in `rest` is one in `first + "\n" + rest`, shifted past `first` and the
      newline, and so is the character after it. */
  lemma ShiftedLine(first: string, rest: string, x: string, o: nat)
    requires OccursAt(rest, x, o)
    ensures OccursAt(first + "\n" + rest, x, |first| + 1 + o)
    ensures o + |x| < |rest| ==>
      |first| + 1 + o + |x| < |first + "\n" + rest|
      && (first + "\n" + rest)[|first| + 1 + o + |x|] == rest[o + |x|]
  {
    var j := first + "\n" + rest;
    assert j[|first| + 1 + o..|first| + 1 + o + |x|] == rest[o..o + |x|];
  }

  /** Later lines start later: the joined text keeps the list order. */
  lemma {:induction false} LineOffsetsIncrease(lines: seq<string>, i: nat)
    requires i + 1 < |lines|
    ensures LineOffset(lines, i) + |lines[i]| < LineOffset(lines, i + 1)
    decreases i
  {
    if i > 0 {
      LineOffsetsIncrease(lines[1..], i - 1);
    }
  }

  /** Every business rule appears as its own line, in list order; when no rule field
      holds a newline, splitting the block at newlines gives back exactly the rule lines. */
  lemma RulesBlockLines(rules: seq<BusinessRule>, i: nat)
    requires i < |rules|
    ensures var lines := RuleLines(rules);
      && OccursAt(Joining(lines), RuleLine(rules[i]), LineOffset(lines, i))
      && (i + 1 < |rules| ==> LineOffset(lines, i) + |RuleLine(rules[i])| < LineOffset(lines, i + 1))
  {
    var lines := RuleLines(rules);
    JoinedLineAt(lines, i);
    if i + 1 < |rules| {
      LineOffsetsIncrease(lines, i);
    }
  }

  lemma RulesBlockSplits(rules: seq<BusinessRule>)
    requires rules != []
    requires forall i :: 0 <= i < |rules| ==> '\n' !in RuleLine(rules[i])
    ensures SplitLines(Joining(RuleLines(rules))) == RuleLines(rules)
  {
    SplitJoin(RuleLines(rules));
  }

  /** Each thread or history item renders as "- " and its non-blank content, else its
      snippet, else nothing. */
  lemma MessageLineMeans(m: EmailMessage)
    ensures MessageLine(m) == "- " + (
      if m.content.Some? && !IsBlank(m.content.value) then m.content.value
      else if m.snippet.Some? then m.snippet.value
      else "")
  {
  }

  /** A list whose every line starts with "- " yields its joined lines; an empty list
      yields the placeholder, and a non-empty one never does when the placeholder starts
      with '('. */
  lemma SectionPlaceholder(lines: seq<string>, placeholder: string)
    requires forall i :: 0 <= i < |lines| ==> StartsWith(lines[i], "- ")
    requires placeholder != [] && placeholder[0] == '('
    ensures lines == [] ==> Section(lines, placeholder) == placeholder
    ensures lines != [] ==> Section(lines, placeholder) == Joining(lines)
    ensures Section(lines, placeholder) == placeholder <==> lines == []
  {
    if lines != [] {
      var j := Joining(lines);
      JoinedLineAt(lines, 0);
      assert j[0] == lines[0][0] == '-';
      assert !IsBlank(j);
    }
  }

  lemma RuleLinesStartWithDash(rules: seq<BusinessRule>)
    ensures forall i :: 0 <= i < |rules| ==> StartsWith(RuleLines(rules)[i], "- ")
  {
    forall i | 0 <= i < |rules| ensures StartsWith(RuleLines(rules)[i], "- ") {
      assert RuleLine(rules[i])[..2] == "- ";
    }
  }

  lemma MessageLinesStartWithDash(ms: seq<EmailMessage>)
    ensures forall i :: 0 <= i < |ms| ==> StartsWith(MessageLines(ms)[i], "- ")
  {
    forall i | 0 <= i < |ms| ensures StartsWith(MessageLines(ms)[i], "- ") {
      assert MessageLine(ms[i])[..2] == "- ";
    }
  }

  /** Each section shows its placeholder exactly when its list is empty, and a missing
      current question is rendered as "". */
  lemma PromptSlots(ctx: EmailContext)
    ensures var q := NullToEmpty(ctx.currentQuestion);
      var t := Section(MessageLines(ctx.threadConversation), NoThreadPlaceholder);
      var s := Section(MessageLines(ctx.similarHistory), NoSimilarPlaceholder);
      var r := Section(RuleLines(ctx.businessRules), NoRulesPlaceholder);
      && BuildPrompts(ctx).userPrompt == UserPrompt(q, t, s, r)
      && (ctx.currentQuestion.None? ==> q == "")
      && (t == NoThreadPlaceholder <==> ctx.threadConversation == [])
      && (s == NoSimilarPlaceholder <==> ctx.similarHistory == [])
      && (r == NoRulesPlaceholder <==> ctx.businessRules == [])
  {
    MessageLinesStartWithDash(ctx.threadConversation);
    MessageLinesStartWithDash(ctx.similarHistory);
    RuleLinesStartWithDash(ctx.businessRules);
    SectionPlaceholder(MessageLines(ctx.threadConversation), NoThreadPlaceholder);
    SectionPlaceholder(MessageLines(ctx.similarHistory), NoSimilarPlaceholder);
    SectionPlaceholder(RuleLines(ctx.businessRules), NoRulesPlaceholder);
  }

  /** Where part `i` starts in the concatenation. */
  function PartOffset(parts: seq<string>, i: nat): nat
    requires i < |parts|
  {
    if i == 0 then 0 else |parts[0]| + PartOffset(parts[1..], i - 1)
  }

  /** Each part occurs at its offset, and the next part starts right where it ends. */
  lemma {:induction false} PartAt(parts: seq<string>, i: nat)
    requires i < |parts|
    ensures OccursAt(Concat(parts), parts[i], PartOffset(parts, i))
    ensures i + 1 < |parts| ==> PartOffset(parts, i + 1) == PartOffset(parts, i) + |parts[i]|
    decreases i
  {
    var c := Concat(parts);
    var rest := Concat(parts[1..]);
    assert c == parts[0] + rest;
    if i == 0 {
      assert c[..|parts[0]|] == parts[0];
    } else {
      PartAt(parts[1..], i - 1);
      var o := PartOffset(parts[1..], i - 1);
      assert parts[1..][i - 1] == parts[i];
      assert c[|parts[0]| + o..|parts[0]| + o + |parts[i]|] == rest[o..o + |parts[i]|];
    }
  }

  /** The user prompt prints its parts in the fixed order Task and Current Question, the
      question, Current Thread Conversation, the thread, Similar Past Email History, the
      history, Latest Business Rules, the rules, Instructions: each part occurs where the
      previous one ends, so each slot comes right after its title. */
  lemma UserPromptOrder(q: string, t: string, s: string, r: string, i: nat)
    requires i < 9
    ensures var parts := UserPromptParts(q, t, s, r);
      && OccursAt(UserPrompt(q, t, s, r), parts[i], PartOffset(parts, i))
      && (i + 1 < 9 ==> PartOffset(parts, i + 1) == PartOffset(parts, i) + |parts[i]|)
  {
    PartAt(UserPromptParts(q, t, s, r), i);
  }
}
