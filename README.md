# hey-you-write-my-emails: a Dafny model of the mail-processing core

The system is a Spring service that reads a Gmail inbox. It cuts each message body into
overlapping chunks and stores them in a vector table, de-duplicated by Gmail message id.
Incoming mail is cleaned up before it is embedded. A language model writes reply drafts
from a prompt assembled out of the thread, similar past mail and the latest business
rules. A hand-written draft whose body starts with "write" is the trigger for such a
reply, and its second line is a note to the model. Outbound calls are wrapped in an
exponential-backoff retry.

This project models the deterministic core of that system and proves properties of it:

- `text_chunker.dfy`: `TextChunker.chunk`, the clamped sliding-window splitter. The loop
  is a method proved against the `Chunked` specification. Lemmas cover the window
  layout, coverage of every character, and well-formed chunks.
- `gmail_text_cleaner.dfy`: `GmailTextCleaner`. It covers the HTML sniff, the HTML-to-text
  pipeline, the sequence of quoted-reply cuts, the CSS-noise pass and the final
  whitespace normalisation. The two whitespace collapses (`\n{3,}` and `[ \t]{2,}`) and
  the entity decoding are modelled exactly. The other regular expressions go through an
  abstract `RegexEngine`.
- `exponential_retry.dfy`: `ExponentialRetryAspect`. It covers the attempt loop, the
  backoff computation in 64-bit arithmetic, the transient-failure filter over the cause
  chain, and the sleep schedule.
- `draft_instruction_parser.dfy`: `DraftInstructionParser.parse` and its `ltrim` loop.
- `email_agent_service.dfy`: `EmailAgentService`. It covers prompt assembly (`buildPrompts`
  with `safe`, `nullToEmpty` and `emptyFallback`) and the draft built from the model's
  answer.
- `mail_ingestion.dfy`: what both ingestion loops share: the mail-client records, chunk
  documents with their metadata, and the vector store as a class whose `add` appends.
- `email_ingestion_service.dfy`: `EmailIngestionService.ingest` and `buildQuery`.
- `gmail_test_ingest_runner.dfy`: `GmailTestIngestRunner.run` and `argInt`.
- `java_text.dfy`: the `String` and `Integer` behaviour the core relies on. This covers
  `isBlank`, `strip`, `indexOf`, `replace`, `toLowerCase`, `split("\n", -1)`,
  `String.join`/`Collectors.joining`, `Integer.parseInt`, `Integer.toString` and `long`
  wrap-around.
- `wrappers.dfy`: `Option`, which stands for a Java reference that may be null.

The two ingestion loops are methods over a `VectorStore` object. Each is proved equal to
a specification function (`Ingested`, `Ran`) built from `Examine`, `ExamineAll` and
`Pages`. The counting, request and de-duplication lemmas are about that function.
They are proved once per loop module, through a generic "relation kept by every step"
lemma (`PagesKeep`).

## Model

| member | source | states |
|---|---|---|
| TextChunker.EffectiveSize | src/main/java/com/vibe/emailagent/service/TextChunker.java:35 | the window size is at least 1 and equals chunkSize whenever chunkSize is positive |
| TextChunker.EffectiveOverlap | src/main/java/com/vibe/emailagent/service/TextChunker.java:36-39 | the overlap is in [0, size); a valid overlap is kept; an overlap of at least size becomes size / 4 |
| TextChunker.WindowStarts | src/main/java/com/vibe/emailagent/service/TextChunker.java:45-56 | every window start lies inside the text |
| TextChunker.Chunked | src/main/java/com/vibe/emailagent/service/TextChunker.java:30-33 | a null or blank text yields no chunks |
| TextChunker.Chunk | src/main/java/com/vibe/emailagent/service/TextChunker.java:30-59 | the loop returns exactly the specified chunk list |
| TextChunker.LoopStep | src/main/java/com/vibe/emailagent/service/TextChunker.java:47-55 | one loop turn consumes one window; the run ends at the window that reaches the end, otherwise the next start is end - overlap, strictly after the current start |
| TextChunker.LoopExit | src/main/java/com/vibe/emailagent/service/TextChunker.java:46 | once the start is past the text nothing more is emitted |
| TextChunker.WindowsFromStarts | src/main/java/com/vibe/emailagent/service/TextChunker.java:45-56 | the windows the loop visits are the windows opened at the listed starts |
| TextChunker.WindowsFromLast | src/main/java/com/vibe/emailagent/service/TextChunker.java:52-54 | a window that reaches the end of the text is the last one |
| TextChunker.WindowsFromNext | src/main/java/com/vibe/emailagent/service/TextChunker.java:55 | a window that stops short of the end is followed by the one starting overlap characters before its end |
| TextChunker.WindowLayout | src/main/java/com/vibe/emailagent/service/TextChunker.java:47-55 | the first window starts at 0, each later one exactly size - overlap after the previous, starts strictly increase, and only the last window reaches the end |
| TextChunker.WindowsCover | src/main/java/com/vibe/emailagent/service/TextChunker.java:45-56 | every character of the stripped text lies in some window |
| TextChunker.ChunkedWindows | src/main/java/com/vibe/emailagent/service/TextChunker.java:41-51 | the chunks are the non-blank strips of the windows at the listed starts, in order |
| TextChunker.WindowsFromBounded | src/main/java/com/vibe/emailagent/service/TextChunker.java:47 | no window is longer than the window size |
| TextChunker.KeptWellFormed | src/main/java/com/vibe/emailagent/service/TextChunker.java:48-51 | each kept strip is non-blank, already stripped, and within the window size |
| TextChunker.ChunksWellFormed | src/main/java/com/vibe/emailagent/service/TextChunker.java:47-51 | every chunk is non-blank, stripped and at most the effective size long |
| TextChunker.ShortTextIsOneChunk | src/main/java/com/vibe/emailagent/service/TextChunker.java:41-54 | a non-blank text whose strip fits in one window gives exactly that strip |
| TextChunker.NonBlankTextHasChunks | src/main/java/com/vibe/emailagent/service/TextChunker.java:31-51 | a text that is not blank gives at least one chunk |
| GmailTextCleaner.FindIn | src/main/java/com/vibe/emailagent/gmail/GmailTextCleaner.java:191-212 | the regex search returns -1 on empty text and otherwise -1 or an offset inside the text |
| GmailTextCleaner.LooksLikeHtml | src/main/java/com/vibe/emailagent/gmail/GmailTextCleaner.java:49-53 | true exactly when the lower-cased text holds one of the four opening tags, or holds `<`, `>` and `</` together |
| GmailTextCleaner.DecodeWithoutAmpersand | src/main/java/com/vibe/emailagent/gmail/GmailTextCleaner.java:87-92 | text without `&` comes out of the entity decoding unchanged |
| GmailTextCleaner.AmpersandDecodedOnce | src/main/java/com/vibe/emailagent/gmail/GmailTextCleaner.java:87-92 | an example of the six replacements making one pass in their order: `&amp;lt;` decodes to `&lt;`, not `<` |
| GmailTextCleaner.CollapseNewlinesNoTriple | src/main/java/com/vibe/emailagent/gmail/GmailTextCleaner.java:43 | after collapsing newline runs, no three newlines are in a row |
| GmailTextCleaner.CollapseBlanksNoDouble | src/main/java/com/vibe/emailagent/gmail/GmailTextCleaner.java:44 | after collapsing space/tab runs, no two blanks are in a row |
| GmailTextCleaner.CollapseBlanksKeepsNoTriple | src/main/java/com/vibe/emailagent/gmail/GmailTextCleaner.java:44 | the blank collapse never creates three newlines in a row |
| GmailTextCleaner.CollapseNewlinesKeepsNoDouble | src/main/java/com/vibe/emailagent/gmail/GmailTextCleaner.java:99-100 | the newline collapse never creates two blanks in a row |
| GmailTextCleaner.CollapseKeepsOut | src/main/java/com/vibe/emailagent/gmail/GmailTextCleaner.java:42-44 | collapsing brings in no character that is absent from the input and outside the collapsed class, so no carriage return reappears |
| GmailTextCleaner.StripKeeps | src/main/java/com/vibe/emailagent/gmail/GmailTextCleaner.java:46 | strip is idempotent and keeps "no triple newline", "no double blank" and "no carriage return" |
| GmailTextCleaner.LineEnd | src/main/java/com/vibe/emailagent/gmail/GmailTextCleaner.java:217-218 | the line ends at the next newline or at the end of the text, with no newline before |
| GmailTextCleaner.LineSearch | src/main/java/com/vibe/emailagent/gmail/GmailTextCleaner.java:214-226 | the result is -1 or a line start whose line starts with the prefix, and no earlier line start qualifies |
| GmailTextCleaner.IndexOfLineStartingWith | src/main/java/com/vibe/emailagent/gmail/GmailTextCleaner.java:214-226 | the scanning loop returns the first line that starts with the prefix, or -1 |
| GmailTextCleaner.IndexOfIgnoreCase | src/main/java/com/vibe/emailagent/gmail/GmailTextCleaner.java:228-230 | -1 exactly when the lower-cased needle does not occur; otherwise the first offset where the needle matches without case |
| GmailTextCleaner.IgnoreCaseMatches | src/main/java/com/vibe/emailagent/gmail/GmailTextCleaner.java:228-230 | searching the lower-cased texts finds the first case-insensitive match |
| GmailTextCleaner.CutPoint | src/main/java/com/vibe/emailagent/gmail/GmailTextCleaner.java:141-183 | each cut point is -1 or an offset inside the text |
| GmailTextCleaner.CutAll | src/main/java/com/vibe/emailagent/gmail/GmailTextCleaner.java:138-183 | the chain of cuts always leaves a prefix of the input |
| GmailTextCleaner.CutStep | src/main/java/com/vibe/emailagent/gmail/GmailTextCleaner.java:141-183 | each cut looks only at what the earlier cuts left |
| GmailTextCleaner.FirstCutBounds | src/main/java/com/vibe/emailagent/gmail/GmailTextCleaner.java:141-183 | nothing after the first cut point survives; a cut that finds nothing changes nothing |
| GmailTextCleaner.ApplyCut | src/main/java/com/vibe/emailagent/gmail/GmailTextCleaner.java:141-144 | one cut keeps the text before the cut point, or all of it when there is none |
| GmailTextCleaner.StripQuotedReply | src/main/java/com/vibe/emailagent/gmail/GmailTextCleaner.java:133-186 | blank text gives ""; otherwise the stripped result of all cuts in order, which is the strip of some prefix of the input |
| GmailTextCleaner.StripCssLikeNoise | src/main/java/com/vibe/emailagent/gmail/GmailTextCleaner.java:108-128 | blank text gives ""; otherwise the CSS-noise rewrites in order |
| GmailTextCleaner.HtmlTextWellFormed | src/main/java/com/vibe/emailagent/gmail/GmailTextCleaner.java:61-103 | whatever the regex rewrites do, the HTML conversion is stripped, with no double blank and no triple newline |
| GmailTextCleaner.HtmlToText | src/main/java/com/vibe/emailagent/gmail/GmailTextCleaner.java:61-103 | blank HTML gives ""; the result is the specified conversion, stripped, with no double blank and no triple newline |
| GmailTextCleaner.NormalizedWellFormed | src/main/java/com/vibe/emailagent/gmail/GmailTextCleaner.java:42-46 | the closing normalisation leaves a stripped text without carriage returns, triple newlines or double blanks |
| GmailTextCleaner.Cleaned | src/main/java/com/vibe/emailagent/gmail/GmailTextCleaner.java:26-47 | every cleaned text is stripped and has no carriage return, no triple newline and no double blank |
| GmailTextCleaner.Clean | src/main/java/com/vibe/emailagent/gmail/GmailTextCleaner.java:26-47 | null or blank input gives ""; the result is the specified cleaning and has the four whitespace guarantees |
| ExponentialRetry.EffectiveMaxAttempts | src/main/java/com/vibe/emailagent/retry/ExponentialRetryAspect.java:25 | at least one attempt; a positive maxAttempts is kept, anything else becomes 1 |
| ExponentialRetry.EffectiveInitialBackoff | src/main/java/com/vibe/emailagent/retry/ExponentialRetryAspect.java:26 | never negative; a non-negative backoff is kept, a negative one becomes 0 |
| ExponentialRetry.SafeMessage | src/main/java/com/vibe/emailagent/retry/ExponentialRetryAspect.java:101-105 | "" for no throwable, else the message, else the class's simple name |
| ExponentialRetry.ContainsAnyMeans | src/main/java/com/vibe/emailagent/retry/ExponentialRetryAspect.java:80-88 | the chain of `contains` tests holds exactly when some marker occurs in the message |
| ExponentialRetry.CauseChain | src/main/java/com/vibe/emailagent/retry/ExponentialRetryAspect.java:93-96 | the chain starts with the throwable itself |
| ExponentialRetry.IsRetryableChain | src/main/java/com/vibe/emailagent/retry/ExponentialRetryAspect.java:76-99 | retryable exactly when some throwable in the cause chain names a transient condition |
| ExponentialRetry.Multiplier | src/main/java/com/vibe/emailagent/retry/ExponentialRetryAspect.java:66-67 | the multiplier is between 1 and 2^20 |
| ExponentialRetry.CalculateBackoff | src/main/java/com/vibe/emailagent/retry/ExponentialRetryAspect.java:65-69 | the backoff is a 64-bit value |
| ExponentialRetry.BackoffExact | src/main/java/com/vibe/emailagent/retry/ExponentialRetryAspect.java:65-69 | without overflow the backoff is initial * 2^min(attempt-1, 20) and not negative |
| ExponentialRetry.BackoffDoubles | src/main/java/com/vibe/emailagent/retry/ExponentialRetryAspect.java:59-69 | each backoff doubles the previous one up to attempt 21 and stays constant after that |
| ExponentialRetry.RetryingCharacterized | src/main/java/com/vibe/emailagent/retry/ExponentialRetryAspect.java:30-53 | from any attempt, the loop makes at most maxAttempts calls; every call but the last failed retryably and was followed by the computed sleep; the last call ends the run for one of the loop's four reasons |
| ExponentialRetry.RetriedCharacterized | src/main/java/com/vibe/emailagent/retry/ExponentialRetryAspect.java:24-57 | a run makes 1..maxAttempts calls, the k-th sleep is calculateBackoff(initial, k), and the result is the returned value, the failure rethrown unchanged, or the negative-sleep rejection |
| ExponentialRetry.FirstValueReturned | src/main/java/com/vibe/emailagent/retry/ExponentialRetryAspect.java:30-33 | a returned value is what the last call returned, and every earlier call threw |
| ExponentialRetry.NonRetryableRethrownAtOnce | src/main/java/com/vibe/emailagent/retry/ExponentialRetryAspect.java:36-39 | a non-retryable first failure is rethrown after one call, with no sleep |
| ExponentialRetry.SleepLog | src/main/java/com/vibe/emailagent/retry/ExponentialRetryAspect.java:36-47 | there are at most maxAttempts - 1 sleeps, and the j-th lasts calculateBackoff(initial, j) |
| ExponentialRetry.DefaultSchedule | src/main/java/com/vibe/emailagent/retry/ExponentialRetry.java:25-30 | under the defaults, at most three calls, sleeping 1000 ms and then 2000 ms |
| ExponentialRetry.Around | src/main/java/com/vibe/emailagent/retry/ExponentialRetryAspect.java:24-57 | the attempt loop ends exactly as the specified run |
| DraftInstructionParser.LeftTrimmed | src/main/java/com/vibe/emailagent/gmail/DraftInstructionParser.java:48-54 | the result is a suffix of the input, everything dropped is whitespace, and it starts with non-whitespace |
| DraftInstructionParser.LTrim | src/main/java/com/vibe/emailagent/gmail/DraftInstructionParser.java:48-54 | the skipping loop returns the left-trimmed suffix |
| DraftInstructionParser.Recognise | src/main/java/com/vibe/emailagent/gmail/DraftInstructionParser.java:29-45 | a text that is not a trigger has no note; a note is the non-blank stripped second line |
| DraftInstructionParser.Parse | src/main/java/com/vibe/emailagent/gmail/DraftInstructionParser.java:21-46 | null is not a trigger; a non-trigger has no note; a note is non-blank and stripped |
| DraftInstructionParser.WriteDraftMeans | src/main/java/com/vibe/emailagent/gmail/DraftInstructionParser.java:26-32 | a body is a trigger exactly when its first non-whitespace characters spell "write" in any letter case |
| DraftInstructionParser.NoteIsSecondLine | src/main/java/com/vibe/emailagent/gmail/DraftInstructionParser.java:34-43 | the note is the stripped second line, or none when that line is blank |
| DraftInstructionParser.NoteIsLastLine | src/main/java/com/vibe/emailagent/gmail/DraftInstructionParser.java:34-43 | the same holds when the second line runs to the end of the text |
| DraftInstructionParser.SingleLineHasNoNote | src/main/java/com/vibe/emailagent/gmail/DraftInstructionParser.java:36-43 | a one-line body has no note |
| DraftInstructionParser.NormalizeWithoutCarriageReturn | src/main/java/com/vibe/emailagent/gmail/DraftInstructionParser.java:26 | the CRLF normalisation leaves a text without carriage returns unchanged |
| DraftInstructionParser.LaterLinesIgnored | src/main/java/com/vibe/emailagent/gmail/DraftInstructionParser.java:34-45 | two bodies whose normalised, left-trimmed texts share their first two lines parse alike, whatever follows |
| DraftInstructionParser.LaterLinesIgnoredAfterCleanLines | src/main/java/com/vibe/emailagent/gmail/DraftInstructionParser.java:25-45 | in particular, bodies sharing a first line that starts with non-whitespace and a second line, both free of line breaks, parse alike |
| DraftInstructionParser.WritePrefixTriggers | src/main/java/com/vibe/emailagent/gmail/DraftInstructionParser.java:29-32 | any body that begins with "write" in some case is a trigger, whatever follows ("writeup" and CRLF line endings included) |
| EmailAgentService.NullToEmpty | src/main/java/com/vibe/emailagent/service/EmailAgentService.java:166-168 | null becomes "", anything else is kept |
| EmailAgentService.Concatenated | src/main/java/com/vibe/emailagent/service/EmailAgentService.java:113 | a null field prints as "null" inside a concatenation |
| EmailAgentService.Safe | src/main/java/com/vibe/emailagent/service/EmailAgentService.java:159-164 | non-blank content wins; otherwise the snippet, or "" for a null snippet |
| EmailAgentService.EmptyFallback | src/main/java/com/vibe/emailagent/service/EmailAgentService.java:170-175 | a null or blank value becomes the fallback; anything else is kept |
| EmailAgentService.Joining | src/main/java/com/vibe/emailagent/service/EmailAgentService.java:114 | joining no lines gives "" |
| EmailAgentService.RuleLines | src/main/java/com/vibe/emailagent/service/EmailAgentService.java:112-113 | one rule line per rule, in list order |
| EmailAgentService.MessageLines | src/main/java/com/vibe/emailagent/service/EmailAgentService.java:116-122 | one line per message, in list order |
| EmailAgentService.BuildPrompts | src/main/java/com/vibe/emailagent/service/EmailAgentService.java:92-152 | the system prompt is the fixed text, and the user prompt is the template with the question and the three sections filled in |
| EmailAgentService.GenerateDraft | src/main/java/com/vibe/emailagent/service/EmailAgentService.java:68-69 | the draft carries the subject and the answer, each "" when null |
| EmailAgentService.JoinedLineAt | src/main/java/com/vibe/emailagent/service/EmailAgentService.java:112-114 | each line occurs in the joined block at its offset, followed by a newline unless it is the last |
| EmailAgentService.LineOffsetsIncrease | src/main/java/com/vibe/emailagent/service/EmailAgentService.java:112-114 | later lines start later in the joined block |
| EmailAgentService.RulesBlockLines | src/main/java/com/vibe/emailagent/service/EmailAgentService.java:112-114 | every business rule appears as its own line of the block, in list order |
| EmailAgentService.RulesBlockSplits | src/main/java/com/vibe/emailagent/service/EmailAgentService.java:112-114 | when no rule field holds a newline, splitting the block gives back exactly the rule lines |
| EmailAgentService.MessageLineMeans | src/main/java/com/vibe/emailagent/service/EmailAgentService.java:116-122 | a thread or history line is "- " and the non-blank content, else the snippet, else nothing |
| EmailAgentService.SectionPlaceholder | src/main/java/com/vibe/emailagent/service/EmailAgentService.java:170-175 | a section shows its placeholder exactly when its list is empty |
| EmailAgentService.RuleLinesStartWithDash | src/main/java/com/vibe/emailagent/service/EmailAgentService.java:113 | every rule line starts with "- " |
| EmailAgentService.MessageLinesStartWithDash | src/main/java/com/vibe/emailagent/service/EmailAgentService.java:117 | every message line starts with "- " |
| EmailAgentService.PromptSlots | src/main/java/com/vibe/emailagent/service/EmailAgentService.java:144-149 | each slot holds its placeholder exactly when its list is empty, and a missing question prints as "" |
| EmailAgentService.PartAt | src/main/java/com/vibe/emailagent/service/EmailAgentService.java:124-143 | each part of the concatenation sits at its offset, and the next part starts where it ends |
| EmailAgentService.UserPromptOrder | src/main/java/com/vibe/emailagent/service/EmailAgentService.java:124-149 | the user prompt prints its titles and slots in the fixed order, each slot right after its title |
| MailIngestion.Summaries | src/main/java/com/vibe/emailagent/service/EmailIngestionService.java:90-94 | a null message list counts as an empty page |
| MailIngestion.ChunkDocument | src/main/java/com/vibe/emailagent/service/EmailIngestionService.java:132-143 | a chunk's document holds the chunk text, the message id, the chunk index and the chunk count |
| MailIngestion.DocumentsUpToMeans | src/main/java/com/vibe/emailagent/service/EmailIngestionService.java:126-146 | each document holds a non-blank chunk with its index and the message id; indices increase; with no blank chunk there is one document per chunk |
| MailIngestion.BuildDocuments | src/main/java/com/vibe/emailagent/run/GmailTestIngestRunner.java:148-168 | the chunk loop builds one document per non-blank chunk, in chunk order |
| MailIngestion.ChunkDocumentsCarryId | src/main/java/com/vibe/emailagent/service/EmailIngestionService.java:133 | every document of a message carries the fetched content's message id |
| MailIngestion.BodyDocuments | src/main/java/com/vibe/emailagent/service/EmailIngestionService.java:113-124 | a non-blank body has at least one chunk, and every chunk becomes a document |
| MailIngestion.GroupedAppend | src/main/java/com/vibe/emailagent/service/EmailIngestionService.java:105-108 | appending one fresh message's documents keeps every message's documents together |
| MailIngestion.AddsFreshIdsTrans | src/main/java/com/vibe/emailagent/service/EmailIngestionService.java:105-108 | "only new message ids were added" composes over consecutive steps |
| MailIngestion.AppendFresh | src/main/java/com/vibe/emailagent/service/EmailIngestionService.java:105-108 | adding documents of a message id not yet stored adds only new ids |
| MailIngestion.VectorStore.Add | src/main/java/com/vibe/emailagent/service/EmailIngestionService.java:144 | the store gains exactly the batch, and the batch is logged |
| MailIngestion.NextToken | src/main/java/com/vibe/emailagent/service/EmailIngestionService.java:149-150 | paging goes on exactly when the next token is non-null and non-blank |
| EmailIngestionService.JobOf | src/main/java/com/vibe/emailagent/service/EmailIngestionService.java:69-76 | maxMessages, pageSize and chunkSize are at least 1 and chunkOverlap at least 0, with valid settings kept; the query is buildQuery(lookbackHours) |
| EmailIngestionService.BuildQuery | src/main/java/com/vibe/emailagent/service/EmailIngestionService.java:172-180 | no lookback gives the base query; otherwise the base, " newer_than:", and a value ending in "h" |
| EmailIngestionService.BuildQueryReadsBack | src/main/java/com/vibe/emailagent/service/EmailIngestionService.java:179 | the hours in a narrowed query parse back to the number given |
| EmailIngestionService.Singletons | src/main/java/com/vibe/emailagent/service/EmailIngestionService.java:144 | each document goes to add on its own |
| EmailIngestionService.Examine | src/main/java/com/vibe/emailagent/service/EmailIngestionService.java:94-146 | examining a summary counts it as processed and requests no page |
| EmailIngestionService.ExamineAll | src/main/java/com/vibe/emailagent/service/EmailIngestionService.java:94-96 | a page never pushes processed past maxMessages, and a non-empty page under budget makes progress |
| EmailIngestionService.Pages | src/main/java/com/vibe/emailagent/service/EmailIngestionService.java:86-153 | the paging loop never pushes processed past maxMessages |
| EmailIngestionService.PagesEnd | src/main/java/com/vibe/emailagent/service/EmailIngestionService.java:90-92 | an empty page ends the run right after its request |
| EmailIngestionService.PagesOn | src/main/java/com/vibe/emailagent/service/EmailIngestionService.java:94-152 | a non-empty page is examined and paging continues exactly when there is a next token |
| EmailIngestionService.Ingest | src/main/java/com/vibe/emailagent/service/EmailIngestionService.java:68-156 | the loop returns the specified counters, leaves the store as specified and makes exactly the specified page requests |
| EmailIngestionService.ExaminePage | src/main/java/com/vibe/emailagent/service/EmailIngestionService.java:94-147 | the summary loop ends in the state of examining the page, making progress and staying within the budget |
| EmailIngestionService.ExamineMessage | src/main/java/com/vibe/emailagent/service/EmailIngestionService.java:95-146 | one loop body ends in the state of examining that summary |
| EmailIngestionService.StoreChunks | src/main/java/com/vibe/emailagent/service/EmailIngestionService.java:124-146 | the chunk loop stores one document per non-blank chunk, each with its own add, and counts them |
| EmailIngestionService.ExamineSkips | src/main/java/com/vibe/emailagent/service/EmailIngestionService.java:99-122 | a message is skipped exactly when its id is null or blank, its id is already stored, or its body is null or blank |
| EmailIngestionService.ExamineStores | src/main/java/com/vibe/emailagent/service/EmailIngestionService.java:124-146 | any other message adds one document per chunk, each in its own add, and inserted grows by the chunk count |
| EmailIngestionService.ExamineCounted | src/main/java/com/vibe/emailagent/service/EmailIngestionService.java:94-146 | one message step keeps the counting relation |
| EmailIngestionService.CountedKept | src/main/java/com/vibe/emailagent/service/EmailIngestionService.java:86-153 | every step of the loop keeps the counting relation |
| EmailIngestionService.RequestsKept | src/main/java/com/vibe/emailagent/service/EmailIngestionService.java:86-88 | every page request carries the query and asks for between 1 and pageSize summaries |
| EmailIngestionService.IngestCounts | src/main/java/com/vibe/emailagent/service/EmailIngestionService.java:80-155 | processed is at most maxMessages; skipped is at most processed; the store only grows; inserted counts the new documents, each added alone; every request is within bounds |
| EmailIngestionService.ExamineFresh | src/main/java/com/vibe/emailagent/service/EmailIngestionService.java:104-108 | a message step adds only documents of ids not stored before |
| EmailIngestionService.IngestAddsNoDuplicates | src/main/java/com/vibe/emailagent/service/EmailIngestionService.java:105-146 | a run adds no document whose message id was already stored, and keeps each message's documents together |
| GmailTestIngestRunner.ArgInt | src/main/java/com/vibe/emailagent/run/GmailTestIngestRunner.java:217-230 | the default when the option is absent, has no values or fails to parse; otherwise the parsed first value |
| GmailTestIngestRunner.ArgIntReadsBack | src/main/java/com/vibe/emailagent/run/GmailTestIngestRunner.java:226 | an option written as an int reads back as that int |
| GmailTestIngestRunner.QueryOf | src/main/java/com/vibe/emailagent/run/GmailTestIngestRunner.java:84-88 | inbox and sent unless the exclude option is present, whatever its value |
| GmailTestIngestRunner.JobOf | src/main/java/com/vibe/emailagent/run/GmailTestIngestRunner.java:78-88 | the four settings are the option values or their defaults, unclamped, and the query follows the exclude option |
| GmailTestIngestRunner.Examine | src/main/java/com/vibe/emailagent/run/GmailTestIngestRunner.java:109-177 | examining a summary counts it as processed and requests no page |
| GmailTestIngestRunner.ExamineAll | src/main/java/com/vibe/emailagent/run/GmailTestIngestRunner.java:109-111 | a page never pushes processed past maxMessages, and a non-empty page under budget makes progress |
| GmailTestIngestRunner.Pages | src/main/java/com/vibe/emailagent/run/GmailTestIngestRunner.java:101-189 | the paging loop never pushes processed past maxMessages |
| GmailTestIngestRunner.PagesEnd | src/main/java/com/vibe/emailagent/run/GmailTestIngestRunner.java:105-107 | an empty page ends the run right after its request |
| GmailTestIngestRunner.PagesOn | src/main/java/com/vibe/emailagent/run/GmailTestIngestRunner.java:109-188 | a non-empty page is examined and paging continues exactly when there is a next token |
| GmailTestIngestRunner.Run | src/main/java/com/vibe/emailagent/run/GmailTestIngestRunner.java:74-196 | the loop ends with the specified counters, store and page requests |
| GmailTestIngestRunner.ExaminePage | src/main/java/com/vibe/emailagent/run/GmailTestIngestRunner.java:109-183 | the summary loop ends in the state of examining the page, making progress and staying within the budget |
| GmailTestIngestRunner.ExamineMessage | src/main/java/com/vibe/emailagent/run/GmailTestIngestRunner.java:110-177 | one loop body ends in the state of examining that summary |
| GmailTestIngestRunner.ExamineSkips | src/main/java/com/vibe/emailagent/run/GmailTestIngestRunner.java:116-143 | a message is skipped exactly when its id is null or blank, its id is already stored, or its body is null or blank |
| GmailTestIngestRunner.ExamineStores | src/main/java/com/vibe/emailagent/run/GmailTestIngestRunner.java:145-177 | any other message stores all its chunk documents with one add; insertedMessages grows by one and insertedChunks by the chunk count |
| GmailTestIngestRunner.NothingWithoutBudget | src/main/java/com/vibe/emailagent/run/GmailTestIngestRunner.java:101-102 | with maxMessages at most zero, nothing is requested, examined or stored |
| GmailTestIngestRunner.ExamineCounted | src/main/java/com/vibe/emailagent/run/GmailTestIngestRunner.java:111-177 | one message step keeps the counting relation |
| GmailTestIngestRunner.CountedKept | src/main/java/com/vibe/emailagent/run/GmailTestIngestRunner.java:101-189 | every step of the loop keeps the counting relation |
| GmailTestIngestRunner.RequestsKept | src/main/java/com/vibe/emailagent/run/GmailTestIngestRunner.java:101-103 | every request carries the query, asks for at most pageSize and at most the remaining budget, and for at least one when pageSize is positive |
| GmailTestIngestRunner.RunCounts | src/main/java/com/vibe/emailagent/run/GmailTestIngestRunner.java:90-192 | every examined message counts once as skipped or inserted; each inserted message made one non-empty add; insertedChunks counts the new documents |
| GmailTestIngestRunner.ExamineFresh | src/main/java/com/vibe/emailagent/run/GmailTestIngestRunner.java:122-177 | a message step adds only fresh ids, in one batch per message |
| GmailTestIngestRunner.RunAddsNoDuplicates | src/main/java/com/vibe/emailagent/run/GmailTestIngestRunner.java:122-128 | a run adds no already-stored message id, each batch holds one message, and each message's documents stay together |
| JavaText.Strip | src/main/java/com/vibe/emailagent/service/TextChunker.java:41 | the strip is empty exactly when the text is blank, otherwise starts and ends with non-whitespace, and is never longer |
| JavaText.StripSlice | src/main/java/com/vibe/emailagent/service/TextChunker.java:41 | the strip is a contiguous slice of the input |
| JavaText.StripIdempotent | src/main/java/com/vibe/emailagent/service/TextChunker.java:48 | stripping twice is stripping once |
| JavaText.FirstNonWhitespace | src/main/java/com/vibe/emailagent/gmail/DraftInstructionParser.java:49-52 | the offset of the first non-whitespace character, with only whitespace before it |
| JavaText.IndexOf | src/main/java/com/vibe/emailagent/gmail/GmailTextCleaner.java:229 | -1 exactly when there is no occurrence; otherwise the first occurrence |
| JavaText.ToLower | src/main/java/com/vibe/emailagent/gmail/DraftInstructionParser.java:30 | lower-casing keeps the length and maps each character on its own |
| JavaText.ReplaceAbsent | src/main/java/com/vibe/emailagent/gmail/DraftInstructionParser.java:26 | replacing a target that does not occur changes nothing |
| JavaText.SplitLines | src/main/java/com/vibe/emailagent/gmail/DraftInstructionParser.java:34 | splitting yields at least one piece and no piece holds a newline |
| JavaText.SplitJoin | src/main/java/com/vibe/emailagent/service/EmailAgentService.java:114 | splitting joined newline-free lines gives them back |
| JavaText.ParseInt | src/main/java/com/vibe/emailagent/run/GmailTestIngestRunner.java:226 | a parsed value lies in the int range |
| JavaText.ParseIntOfIntToString | src/main/java/com/vibe/emailagent/run/GmailTestIngestRunner.java:226 | every int prints as text that parses back to itself |
| JavaText.ToLong | src/main/java/com/vibe/emailagent/retry/ExponentialRetryAspect.java:68 | wrap-around into the 64-bit range, identity on values already in range |

## Left out

- Logging, the `printApplicationArgs` dump and the every-tenth-message progress line are left out. They are output only.
- `applicationContext.close()` at the end of the runner is left out. Shutting down the application context has no effect on the counters or the store.
- The Gmail client's `listMessages` and `fetchMessageContent` are function parameters (`MailSource`). Their signatures, `listMessages(query, batchSize, pageToken)` and `fetchMessageContent(id)`, are taken from the call sites: the `GmailClient` interface in the source declares only `findUnrepliedMessagesSince` and `createReplyDraft`. The network, OAuth and paging on Google's side are not part of this model.
- `listMessages`, `fetchMessageContent` and `vectorStore.add` are taken to succeed. In the code an exception from any of them propagates out of both loops uncaught, and no result is returned. In the runner the batches added before the failure stay in the store. `ingest` runs in a transaction, so its earlier adds may be rolled back. Neither abort is modelled.
- The de-duplication query is modelled as "some stored document's metadata carries this message id" (`StoredMessageId`). The SQL and JSONB evaluation are not modelled.
- Document ids come from `UUID.randomUUID()` and are not modelled; documents are compared by text and metadata only. `receivedAt` is kept as the string `toString` produces; the `OffsetDateTime` itself is not modelled.
- The vector store's embedding computation and the database write behind `add` are left out. `VectorStore.Add` appends to the store and logs the batch.
- EmailIngestionService.IngestAddsNoDuplicates: the lemma assumes `Consistent`, meaning fetched content carries the id it was fetched by. The loop checks the summary's id, but the stored metadata uses `content.messageId()`. If the two differ, the code gives no guarantee, so the lemma claims none.
- GmailTestIngestRunner.RunAddsNoDuplicates: it makes the same `Consistent` assumption, for the same reason.
- The `int` counters (`processed`, `inserted`, `skipped`, and the runner's four) are unbounded integers. `processed`, `skipped` and `insertedMessages` never exceed `maxMessages`, so they cannot overflow. The service's `inserted` and the runner's `insertedChunks` both count chunks, one per document, and `maxMessages` does not bound them; their 2^31 wrap-around is not modelled.
- TextChunker.Chunk: `start + size` is computed on unbounded integers. The Java `int` sum can overflow for texts within `size` of 2^31 characters, and that case is not modelled.
- The `chunks.isEmpty()` skip in both loops and the `docs.isEmpty()` skip in the runner are modelled as written. `NonBlankTextHasChunks` and `BodyDocuments` show that they are never taken.
- `IngestionProperties.includeSent` is carried by the record but never read by `buildQuery`, so the model does not read it either.
- GmailTestIngestRunner.JobOf: the options are taken as given and not clamped, as in the code. A non-positive page size produces requests with a non-positive batch size, which `RequestsKept` allows.
- GmailTextCleaner: the regular expressions of the tag rewrites, the CSS-noise rewrites and the reply-marker searches are not interpreted. A `RegexEngine` parameter supplies `replaceAll` and `find` for each named pattern, and the only property assumed is that a match starts inside the text. The newline and blank collapses and the entity decoding are modelled exactly.
- GmailTextCleaner.StripCssLikeNoise: because its four patterns go through the abstract engine, its contract can only say that blank text gives "" and that anything else is the four rewrites in order. No independent property is proved for it.
- GmailTextCleaner.StripQuotedReply: the patterns' flags (`MULTILINE`, `CASE_INSENSITIVE`) are part of what the engine supplies. The hand-written `indexOfLineStartingWith` and `indexOfIgnoreCase` are modelled exactly.
- Strings are sequences of Unicode code points, while Java's `length`, `substring` and `charAt` count UTF-16 code units. Window sizes, offsets and lengths in the model therefore count code points. Text with characters outside the Basic Multilingual Plane gives different windows: for `chunk("😀", 1, 0)` Java emits two chunks, each an unpaired surrogate, and the model emits one.
- `String.toLowerCase` and `Character.isWhitespace` are modelled on ASCII letters and the Java whitespace set. Locale-dependent and non-ASCII case mapping is left out. `Integer.parseInt` accepts ASCII digits with an optional sign; other Unicode digits are not modelled.
- ExponentialRetry.Around: the intercepted call is the function `proceed` of the attempt number. `Thread.sleep` is an entry in a sleep log, and whether a sleep is interrupted is the function `interrupted`. Real time, threads and the interrupt flag beyond "re-raised or not" are not modelled.
- ExponentialRetry.IsRetryable: the cycle guard stops only at a throwable that is its own cause, as the code does. The model's cause chain is a finite datatype, so longer cause cycles, on which the Java recursion would not end, cannot be expressed.
- ExponentialRetry.CalculateBackoff: for an initial backoff of at least 2^43 the 64-bit product wraps (from attempt 21 on), and the model wraps it the same way (`ToLong`). The exact-value lemmas assume no wrap-around. A negative wrapped value is passed to `Thread.sleep`, which rejects it, and that run ends in `NegativeSleep`.
- ExponentialRetry.DefaultSchedule: the annotation's doc comment gives 3000 ms as the default initial backoff, but the declared default is 1000 ms. `DefaultPolicy` and `DefaultSchedule` follow the declared default.
- The retry annotation attributes are read only from the method's annotation. Spring's AOP proxying and annotation lookup are not modelled.
- EmailAgentService.GenerateDraft: the `chatClient` call (EmailAgentService.java:59-66) is left out, and its answer is a parameter from which the draft is built. That call is not retried: `generateDraft` calls its own `ChatClient` directly and does not use `LlmCaller.callChatModel`, the method that carries `@ExponentialRetry`.
- EmailAgentService.BuildPrompts: a rule's `updatedAt` and a message's fields are taken as the strings they print as. `OffsetDateTime.toString` formatting is not modelled.
- `EmailContextService` and the JPA repositories that collect the context are not part of this model. The context is an input.
- GmailTestIngestRunner.Run: the method is `void`. The model returns the four counters reported by its final log line.
