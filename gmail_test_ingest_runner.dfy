/**
 * `GmailTestIngestRunner.run`: the same paging and de-duplication as the ingestion
 * service, driven by command-line options, but a message's documents are built first
 * and stored with one `add`, and messages and chunks are counted apart.
 */
module GmailTestIngestRunner {
  import opened Wrappers
  import opened JavaText
  import opened TextChunker
  import opened MailIngestion

  // ---- options ---------------------------------------------------------------------

  /** `ApplicationArguments`: each option given maps to its (possibly null) values. */
  datatype Arguments = Arguments(options: map<string, Option<seq<string>>>)

  const DefaultMaxMessages: int := 1000
  const DefaultPageSize: int := 20
  const DefaultChunkSize: int := 10000
  const DefaultChunkOverlap: int := 200

  /** `argInt`: the first value of the option read as an `int`, or the default when the
      option is absent, has null or no values, or its first value does not parse. */
  function ArgInt(args: Arguments, key: string, defaultValue: int): (r: int)
    ensures key !in args.options ==> r == defaultValue
    ensures key in args.options && (args.options[key].None? || args.options[key].value == []) ==> r == defaultValue
    ensures key in args.options && args.options[key].Some? && args.options[key].value != [] ==>
      var parsed := ParseInt(args.options[key].value[0]);
      && (parsed.None? ==> r == defaultValue)
      && (parsed.Some? ==> r == parsed.value)
  {
    if key !in args.options then defaultValue
    else
      var values := args.options[key];
      if values.None? || values.value == [] then defaultValue
      else
        match ParseInt(values.value[0])
        case None => defaultValue
        case Some(v) => v
  }

  /** An option written as a number is read back as that number. */
  lemma ArgIntReadsBack(args: Arguments, key: string, n: int, more: seq<string>, defaultValue: int)
    requires IntMin <= n <= IntMax
    requires key in args.options && args.options[key] == Some([IntToString(n)] + more)
    ensures ArgInt(args, key, defaultValue) == n
  {
    ParseIntOfIntToString(n);
  }

  const IncludeSentQuery: string := "(in:inbox OR in:sent)"
  const InboxOnlyQuery: string := "in:inbox -from:me"
  const ExcludeSentOption: string := "gmailTestExcludeSent"

  /** Inbox and sent mail unless `gmailTestExcludeSent` is given, whatever its value. */
  function QueryOf(args: Arguments): (q: string)
    ensures ExcludeSentOption !in args.options ==> q == IncludeSentQuery
    ensures ExcludeSentOption in args.options ==> q == InboxOnlyQuery
  {
    if ExcludeSentOption !in args.options then IncludeSentQuery else InboxOnlyQuery
  }

  /** The values `run` works with: the options as given, not clamped. */
  datatype Job = Job(src: MailSource, query: string, maxMessages: int, pageSize: int, chunkSize: int, chunkOverlap: int)

  function JobOf(args: Arguments, src: MailSource): (j: Job)
    ensures j.src == src && j.query == QueryOf(args)
    ensures j.maxMessages == ArgInt(args, "gmailTestMaxMessages", DefaultMaxMessages)
    ensures j.pageSize == ArgInt(args, "gmailTestPageSize", DefaultPageSize)
    ensures j.chunkSize == ArgInt(args, "gmailTestChunkSize", DefaultChunkSize)
    ensures j.chunkOverlap == ArgInt(args, "gmailTestChunkOverlap", DefaultChunkOverlap)
  {
    Job(src, QueryOf(args),
        ArgInt(args, "gmailTestMaxMessages", DefaultMaxMessages),
        ArgInt(args, "gmailTestPageSize", DefaultPageSize),
        ArgInt(args, "gmailTestChunkSize", DefaultChunkSize),
        ArgInt(args, "gmailTestChunkOverlap", DefaultChunkOverlap))
  }

  // ---- the loop as a function ------------------------------------------------------

  /** The four counters the final log line reports. */
  datatype RunSummary = RunSummary(processed: int, insertedMessages: int, insertedChunks: int, skipped: int)

  /** The counters, the store with its log of `add` batches, and the page requests. */
  datatype Tally = Tally(
    processed: int, insertedMessages: int, insertedChunks: int, skipped: int,
    stored: seq<Document>, batches: seq<seq<Document>>, requests: seq<PageRequest>)

  function Skip(t: Tally): Tally {
    t.(processed := t.processed + 1, skipped := t.skipped + 1)
  }

  /** One summary of a page. */
  function Examine(job: Job, t: Tally, m: MessageSummary): (r: Tally)
    ensures r.processed == t.processed + 1 && r.requests == t.requests
  {
    if IsNullOrBlank(m.messageId) then Skip(t)
    else if StoredMessageId(t.stored, m.messageId.value) then Skip(t)
    else
      var c := job.src.fetch(m.messageId.value);
      if IsNullOrBlank(c.plainTextBody) then Skip(t)
      else
        var chunks := Chunked(c.plainTextBody, job.chunkSize, job.chunkOverlap);
        if chunks == [] then Skip(t)
        else
          var docs := ChunkDocuments(c, chunks);
          if docs == [] then Skip(t)
          else
            t.(processed := t.processed + 1, insertedMessages := t.insertedMessages + 1,
               insertedChunks := t.insertedChunks + |docs|,
               stored := t.stored + docs, batches := t.batches + [docs])
  }

  /** The summaries of one page, until `maxMessages` have been examined. */
  function ExamineAll(job: Job, t: Tally, ms: seq<MessageSummary>): (r: Tally)
    ensures t.processed <= r.processed <= Max(t.processed, job.maxMessages)
    ensures t.processed < job.maxMessages && ms != [] ==> t.processed < r.processed
    ensures r.requests == t.requests
    decreases |ms|
  {
    if ms == [] || t.processed >= job.maxMessages then t
    else ExamineAll(job, Examine(job, t, ms[0]), ms[1..])
  }

  /** How many summaries the next page request asks for. */
  function BatchSize(job: Job, t: Tally): int {
    Min(job.pageSize, job.maxMessages - t.processed)
  }

  /** The tally once the page at `token` is requested. */
  function Requested(job: Job, t: Tally, token: Option<string>): Tally {
    t.(requests := t.requests + [PageRequest(job.query, BatchSize(job, t), token)])
  }

  /** The paging loop from the page at `token` on. */
  function Pages(job: Job, t: Tally, token: Option<string>): (r: Tally)
    ensures t.processed <= r.processed <= Max(t.processed, job.maxMessages)
    decreases job.maxMessages - t.processed
  {
    if t.processed >= job.maxMessages then t
    else
      var page := job.src.list(job.query, BatchSize(job, t), token);
      var t1 := Requested(job, t, token);
      var ms := Summaries(page);
      if ms == [] then t1
      else
        var t2 := ExamineAll(job, t1, ms);
        if NextToken(page).None? then t2 else Pages(job, t2, NextToken(page))
  }

  /** What `run` ends with, on a store holding `stored` after the add calls `batches`. */
  function Ran(args: Arguments, src: MailSource, stored: seq<Document>, batches: seq<seq<Document>>): Tally {
    Pages(JobOf(args, src), Tally(0, 0, 0, 0, stored, batches, []), None)
  }

  lemma PagesEnd(job: Job, t: Tally, token: Option<string>, t1: Tally, page: MessagePage)
    requires t.processed < job.maxMessages
    requires t1 == Requested(job, t, token)
    requires page == job.src.list(job.query, Min(job.pageSize, job.maxMessages - t.processed), token)
    requires Summaries(page) == []
    ensures Pages(job, t, token) == t1
  {
  }

  lemma PagesOn(job: Job, t: Tally, token: Option<string>, t1: Tally, page: MessagePage, t2: Tally)
    requires t.processed < job.maxMessages
    requires t1 == Requested(job, t, token)
    requires page == job.src.list(job.query, Min(job.pageSize, job.maxMessages - t.processed), token)
    requires Summaries(page) != [] && t2 == ExamineAll(job, t1, Summaries(page))
    ensures NextToken(page).None? ==> Pages(job, t, token) == t2
    ensures NextToken(page).Some? ==> Pages(job, t, token) == Pages(job, t2, NextToken(page))
  {
  }

  // ---- the loop ----------------------------------------------------------------------

  /** `run`, returning the counters of its final log line. */
  method Run(args: Arguments, src: MailSource, store: VectorStore) returns (summary: RunSummary, ghost requests: seq<PageRequest>)
    modifies store
    ensures var t := Ran(args, src, old(store.documents), old(store.batches));
      && summary == RunSummary(t.processed, t.insertedMessages, t.insertedChunks, t.skipped)
      && store.documents == t.stored && store.batches == t.batches && requests == t.requests
  {
    var job := JobOf(args, src);
    var processed, insertedMessages, insertedChunks, skipped := 0, 0, 0, 0;
    var pageToken: Option<string> := None;
    requests := [];
    ghost var total := Ran(args, src, store.documents, store.batches);
    while processed < job.maxMessages
      invariant 0 <= processed
      invariant Pages(job, Tally(processed, insertedMessages, insertedChunks, skipped, store.documents, store.batches, requests), pageToken) == total
      decreases job.maxMessages - processed
    {
      ghost var t := Tally(processed, insertedMessages, insertedChunks, skipped, store.documents, store.batches, requests);
      var batch := Min(job.pageSize, job.maxMessages - processed);
      var page := job.src.list(job.query, batch, pageToken);
      requests := requests + [PageRequest(job.query, batch, pageToken)];
      ghost var t1 := Tally(processed, insertedMessages, insertedChunks, skipped, store.documents, store.batches, requests);
      if page.messages.None? || page.messages.value == [] {
        PagesEnd(job, t, pageToken, t1, page);
        break;
      }
      processed, insertedMessages, insertedChunks, skipped :=
        ExaminePage(job, store, page.messages.value, processed, insertedMessages, insertedChunks, skipped, requests);
      PagesOn(job, t, pageToken, t1, page,
        Tally(processed, insertedMessages, insertedChunks, skipped, store.documents, store.batches, requests));
      pageToken := page.nextPageToken;
      if pageToken.None? || IsBlank(pageToken.value) {
        break;
      }
    }
    summary := RunSummary(processed, insertedMessages, insertedChunks, skipped);
  }

  /** The loop over one page's summaries, which stops once `maxMessages` are examined. */
  method ExaminePage(job: Job, store: VectorStore, ms: seq<MessageSummary>,
                     processed: int, insertedMessages: int, insertedChunks: int, skipped: int, ghost requests: seq<PageRequest>)
    returns (processed': int, insertedMessages': int, insertedChunks': int, skipped': int)
    requires processed < job.maxMessages && ms != []
    modifies store
    ensures processed < processed' <= job.maxMessages
    ensures Tally(processed', insertedMessages', insertedChunks', skipped', store.documents, store.batches, requests)
      == ExamineAll(job, Tally(processed, insertedMessages, insertedChunks, skipped, old(store.documents), old(store.batches), requests), ms)
  {
    ghost var before := Tally(processed, insertedMessages, insertedChunks, skipped, store.documents, store.batches, requests);
    processed', insertedMessages', insertedChunks', skipped' := processed, insertedMessages, insertedChunks, skipped;
    var i := 0;
    while i < |ms|
      invariant 0 <= i <= |ms|
      invariant processed <= processed' <= job.maxMessages
      invariant i == 0 ==> processed' == processed
      invariant i > 0 ==> processed' > processed
      invariant ExamineAll(job, Tally(processed', insertedMessages', insertedChunks', skipped', store.documents, store.batches, requests), ms[i..])
        == ExamineAll(job, before, ms)
    {
      if processed' >= job.maxMessages {
        break;
      }
      processed', insertedMessages', insertedChunks', skipped' :=
        ExamineMessage(job, store, ms[i], processed', insertedMessages', insertedChunks', skipped', requests);
      i := i + 1;
    }
  }

  /** The body of the loop over one page's summaries. */
  method ExamineMessage(job: Job, store: VectorStore, m: MessageSummary,
                        processed: int, insertedMessages: int, insertedChunks: int, skipped: int, ghost requests: seq<PageRequest>)
    returns (processed': int, insertedMessages': int, insertedChunks': int, skipped': int)
    modifies store
    ensures Tally(processed', insertedMessages', insertedChunks', skipped', store.documents, store.batches, requests)
      == Examine(job, Tally(processed, insertedMessages, insertedChunks, skipped, old(store.documents), old(store.batches), requests), m)
  {
    processed' := processed + 1;
    insertedMessages', insertedChunks', skipped' := insertedMessages, insertedChunks, skipped;
    var messageId := m.messageId;
    if messageId.None? || IsBlank(messageId.value) {
      skipped' := skipped + 1;
      return;
    }
    if store.HasMessageId(messageId.value) {
      skipped' := skipped + 1;
      return;
    }
    var content := job.src.fetch(messageId.value);
    var body := content.plainTextBody;
    if body.None? || IsBlank(body.value) {
      skipped' := skipped + 1;
      return;
    }
    var chunks := Chunk(body, job.chunkSize, job.chunkOverlap);
    if chunks == [] {
      skipped' := skipped + 1;
      return;
    }
    var docs := BuildDocuments(content, chunks);
    if docs == [] {
      skipped' := skipped + 1;
      return;
    }
    store.Add(docs);
    insertedMessages' := insertedMessages + 1;
    insertedChunks' := insertedChunks + |docs|;
  }

  // ---- one message -------------------------------------------------------------------

  /** A message is skipped, with the store and the inserted counts unchanged, exactly when
      its id is null or blank, its id is already stored, or its body is null or blank. */
  lemma ExamineSkips(job: Job, t: Tally, m: MessageSummary)
    ensures Examine(job, t, m) == Skip(t) <==>
      || IsNullOrBlank(m.messageId)
      || StoredMessageId(t.stored, m.messageId.value)
      || IsNullOrBlank(job.src.fetch(m.messageId.value).plainTextBody)
  {
    if !IsNullOrBlank(m.messageId) && !StoredMessageId(t.stored, m.messageId.value) {
      var c := job.src.fetch(m.messageId.value);
      if !IsNullOrBlank(c.plainTextBody) {
        BodyDocuments(c, job.chunkSize, job.chunkOverlap);
      }
    }
  }

  /** Any other message stores one document per chunk of its body with a single `add`;
      `insertedMessages` grows by one and `insertedChunks` by the number of chunks. */
  lemma ExamineStores(job: Job, t: Tally, m: MessageSummary, c: MessageContent, chunks: seq<string>)
    requires !IsNullOrBlank(m.messageId) && !StoredMessageId(t.stored, m.messageId.value)
    requires c == job.src.fetch(m.messageId.value) && !IsNullOrBlank(c.plainTextBody)
    requires chunks == Chunked(c.plainTextBody, job.chunkSize, job.chunkOverlap)
    ensures var r := Examine(job, t, m);
      && r.stored == t.stored + ChunkDocuments(c, chunks)
      && r.batches == t.batches + [ChunkDocuments(c, chunks)]
      && |ChunkDocuments(c, chunks)| == |chunks| > 0
      && (forall k :: 0 <= k < |chunks| ==> ChunkDocuments(c, chunks)[k] == ChunkDocument(c, chunks, k))
      && r.insertedMessages == t.insertedMessages + 1
      && r.insertedChunks == t.insertedChunks + |chunks|
      && r.skipped == t.skipped
  {
    BodyDocuments(c, job.chunkSize, job.chunkOverlap);
  }

  /** With `maxMessages` at most zero nothing is requested, examined or stored. */
  lemma NothingWithoutBudget(args: Arguments, src: MailSource, stored: seq<Document>, batches: seq<seq<Document>>)
    requires JobOf(args, src).maxMessages <= 0
    ensures Ran(args, src, stored, batches) == Tally(0, 0, 0, 0, stored, batches, [])
  {
  }

  // ---- what the loop keeps -----------------------------------------------------------

  /** A relation between an earlier and a later tally that every step of the loop keeps. */
  ghost predicate KeptBySteps(job: Job, R: (Tally, Tally) -> bool) {
    && (forall t :: R(t, t))
    && (forall a, b, c :: R(a, b) && R(b, c) ==> R(a, c))
    && (forall t, m :: R(t, Examine(job, t, m)))
    && (forall t: Tally, token: Option<string> :: t.processed < job.maxMessages ==> R(t, Requested(job, t, token)))
  }

  lemma {:induction false} ExamineAllKeeps(job: Job, R: (Tally, Tally) -> bool, t: Tally, ms: seq<MessageSummary>)
    requires KeptBySteps(job, R)
    ensures R(t, ExamineAll(job, t, ms))
    decreases |ms|
  {
    if ms != [] && t.processed < job.maxMessages {
      var t1 := Examine(job, t, ms[0]);
      ExamineAllKeeps(job, R, t1, ms[1..]);
      assert R(t, t1);
    }
  }

  lemma {:induction false} PagesKeep(job: Job, R: (Tally, Tally) -> bool, t: Tally, token: Option<string>)
    requires KeptBySteps(job, R)
    ensures R(t, Pages(job, t, token))
    decreases job.maxMessages - t.processed
  {
    if t.processed < job.maxMessages {
      var t1 := Requested(job, t, token);
      var page := job.src.list(job.query, BatchSize(job, t), token);
      var ms := Summaries(page);
      assert R(t, t1);
      if ms != [] {
        var t2 := ExamineAll(job, t1, ms);
        ExamineAllKeeps(job, R, t1, ms);
        if NextToken(page).Some? {
          PagesKeep(job, R, t2, NextToken(page));
        }
      }
    }
  }

  // ---- counters and requests ---------------------------------------------------------

  /** `b` follows `a` in one run: each message examined in between was either skipped or
      stored; each stored message made one non-empty `add` batch; `insertedChunks` grows
      by the number of new documents, which are the new batches in order. */
  ghost predicate Counted(a: Tally, b: Tally) {
    && a.skipped <= b.skipped && a.insertedMessages <= b.insertedMessages
    && b.processed - a.processed == (b.skipped - a.skipped) + (b.insertedMessages - a.insertedMessages)
    && |a.stored| <= |b.stored| && b.stored[..|a.stored|] == a.stored
    && |a.batches| <= |b.batches| && b.batches[..|a.batches|] == a.batches
    && |b.batches| - |a.batches| == b.insertedMessages - a.insertedMessages
    && Flatten(b.batches[|a.batches|..]) == b.stored[|a.stored|..]
    && b.insertedChunks - a.insertedChunks == |b.stored| - |a.stored|
    && (forall k :: |a.batches| <= k < |b.batches| ==> b.batches[k] != [])
  }

  lemma CountedRefl(t: Tally)
    ensures Counted(t, t)
  {
    assert t.stored[..|t.stored|] == t.stored && t.stored[|t.stored|..] == [];
    assert t.batches[..|t.batches|] == t.batches && t.batches[|t.batches|..] == [];
  }

  lemma CountedTrans(a: Tally, b: Tally, c: Tally)
    requires Counted(a, b) && Counted(b, c)
    ensures Counted(a, c)
  {
    PrefixChain(a.stored, b.stored, c.stored);
    PrefixChain(a.batches, b.batches, c.batches);
    FlattenAppend(b.batches[|a.batches|..], c.batches[|b.batches|..]);
    forall k | |a.batches| <= k < |c.batches| ensures c.batches[k] != [] {
      if k < |b.batches| {
        assert c.batches[k] == c.batches[..|b.batches|][k];
      }
    }
  }

  lemma ExamineCounted(job: Job, t: Tally, m: MessageSummary)
    ensures Counted(t, Examine(job, t, m))
  {
    var r := Examine(job, t, m);
    if r.stored == t.stored && r.batches == t.batches {
      CountedRefl(t);
    } else {
      var docs := r.stored[|t.stored|..];
      assert r.stored == t.stored + docs;
      assert r.batches == t.batches + [docs];
      assert r.batches[..|t.batches|] == t.batches;
      assert r.batches[|t.batches|..] == [docs];
      assert Flatten([docs]) == docs + Flatten([]);
    }
  }

  lemma CountedKept(job: Job)
    ensures KeptBySteps(job, (a, b) => Counted(a, b))
  {
    forall t: Tally ensures Counted(t, t) {
      CountedRefl(t);
    }
    forall a: Tally, b: Tally, c: Tally | Counted(a, b) && Counted(b, c) ensures Counted(a, c) {
      CountedTrans(a, b, c);
    }
    forall t, m ensures Counted(t, Examine(job, t, m)) {
      ExamineCounted(job, t, m);
    }
    forall t: Tally, token: Option<string> | t.processed < job.maxMessages
      ensures Counted(t, Requested(job, t, token))
    {
      CountedRefl(t);
    }
  }

  /** `b` follows `a`: the page requests made in between all carry the query and ask for
      at most `pageSize` summaries and no more than were left of `maxMessages` at `a`,
      and at least one when
      `pageSize` is positive. */
  ghost predicate RequestsWithin(job: Job, a: Tally, b: Tally) {
    && a.processed <= b.processed
    && |a.requests| <= |b.requests| && b.requests[..|a.requests|] == a.requests
    && forall k :: |a.requests| <= k < |b.requests| ==>
      && b.requests[k].query == job.query
      && b.requests[k].batchSize <= job.pageSize
      && b.requests[k].batchSize <= job.maxMessages - a.processed
      && (job.pageSize >= 1 ==> b.requests[k].batchSize >= 1)
  }

  lemma RequestsKept(job: Job)
    ensures KeptBySteps(job, (a, b) => RequestsWithin(job, a, b))
  {
    forall a: Tally, b: Tally, c: Tally | RequestsWithin(job, a, b) && RequestsWithin(job, b, c)
      ensures RequestsWithin(job, a, c)
    {
      PrefixChain(a.requests, b.requests, c.requests);
      forall k | |a.requests| <= k < |c.requests|
        ensures c.requests[k].query == job.query
      {
        if k < |b.requests| {
          assert c.requests[k] == c.requests[..|b.requests|][k];
        }
      }
    }
    forall t: Tally ensures RequestsWithin(job, t, t) {
      assert t.requests[..|t.requests|] == t.requests;
    }
    forall t: Tally, token: Option<string> | t.processed < job.maxMessages
      ensures RequestsWithin(job, t, Requested(job, t, token))
    {
      assert Requested(job, t, token).requests[..|t.requests|] == t.requests;
    }
  }

  /** What one run does to the counters, the store and the page requests: every message
      examined is counted once as skipped or as inserted, every inserted message made
      exactly one non-empty `add`, and `insertedChunks` counts the new documents. */
  lemma RunCounts(args: Arguments, src: MailSource, stored: seq<Document>, batches: seq<seq<Document>>)
    ensures var job := JobOf(args, src);
      var t := Ran(args, src, stored, batches);
      && 0 <= t.processed <= Max(0, job.maxMessages)
      && t.processed == t.skipped + t.insertedMessages
      && |stored| <= |t.stored| && t.stored[..|stored|] == stored
      && |batches| <= |t.batches| && t.batches[..|batches|] == batches
      && |t.batches| - |batches| == t.insertedMessages
      && Flatten(t.batches[|batches|..]) == t.stored[|stored|..]
      && t.insertedChunks == |t.stored| - |stored|
      && (forall k :: |batches| <= k < |t.batches| ==> t.batches[k] != [])
      && forall k :: 0 <= k < |t.requests| ==>
        && t.requests[k].query == job.query
        && t.requests[k].batchSize <= job.pageSize && t.requests[k].batchSize <= job.maxMessages
  {
    var job := JobOf(args, src);
    var t0 := Tally(0, 0, 0, 0, stored, batches, []);
    CountedKept(job);
    PagesKeep(job, (a, b) => Counted(a, b), t0, None);
    RequestsKept(job);
    PagesKeep(job, (a, b) => RequestsWithin(job, a, b), t0, None);
  }

  // ---- de-duplication ----------------------------------------------------------------

  /** `b` follows `a`: new documents carry message ids `a` had not stored, and each new
      `add` batch holds the documents of a single message id. */
  ghost predicate FreshBatches(a: Tally, b: Tally) {
    && AddsFreshIds(a.stored, b.stored)
    && |a.batches| <= |b.batches| && b.batches[..|a.batches|] == a.batches
    && forall k, i :: |a.batches| <= k < |b.batches| && 0 <= i < |b.batches[k]| ==>
      b.batches[k][i].metadata.messageId == b.batches[k][0].metadata.messageId
  }

  lemma FreshRefl(t: Tally)
    ensures FreshBatches(t, t)
  {
    AddsFreshIdsRefl(t.stored);
    assert t.batches[..|t.batches|] == t.batches;
  }

  lemma FreshTrans(a: Tally, b: Tally, c: Tally)
    requires FreshBatches(a, b) && FreshBatches(b, c)
    ensures FreshBatches(a, c)
  {
    AddsFreshIdsTrans(a.stored, b.stored, c.stored);
    PrefixChain(a.batches, b.batches, c.batches);
    forall k, i | |a.batches| <= k < |c.batches| && 0 <= i < |c.batches[k]|
      ensures c.batches[k][i].metadata.messageId == c.batches[k][0].metadata.messageId
    {
      if k < |b.batches| {
        assert c.batches[k] == c.batches[..|b.batches|][k];
      }
    }
  }

  lemma ExamineFresh(job: Job, t: Tally, m: MessageSummary)
    requires Consistent(job.src)
    ensures FreshBatches(t, Examine(job, t, m))
  {
    var r := Examine(job, t, m);
    if r.stored == t.stored && r.batches == t.batches {
      FreshRefl(t);
    } else {
      var id := m.messageId.value;
      var c := job.src.fetch(id);
      var chunks := Chunked(c.plainTextBody, job.chunkSize, job.chunkOverlap);
      var docs := ChunkDocuments(c, chunks);
      assert !IsNullOrBlank(m.messageId) && !StoredMessageId(t.stored, id);
      ChunkDocumentsCarryId(c, chunks);
      assert c.messageId == Some(id);
      assert forall k :: 0 <= k < |docs| ==> docs[k].metadata.messageId == Some(id);
      AppendFresh(t.stored, docs, id);
      assert r.batches == t.batches + [docs];
      assert r.batches[..|t.batches|] == t.batches;
    }
  }

  lemma FreshKept(job: Job)
    requires Consistent(job.src)
    ensures KeptBySteps(job, (a, b) => FreshBatches(a, b))
  {
    forall t: Tally ensures FreshBatches(t, t) {
      FreshRefl(t);
    }
    forall a: Tally, b: Tally, c: Tally | FreshBatches(a, b) && FreshBatches(b, c) ensures FreshBatches(a, c) {
      FreshTrans(a, b, c);
    }
    forall t, m ensures FreshBatches(t, Examine(job, t, m)) {
      ExamineFresh(job, t, m);
    }
    forall t: Tally, token: Option<string> | t.processed < job.maxMessages
      ensures FreshBatches(t, Requested(job, t, token))
    {
      FreshRefl(t);
    }
  }

  /** Running again over the same store adds no duplicates: when the source returns each
      message under the id it was fetched by, no new document carries a message id that
      was already stored, each new `add` batch holds one message's documents, and every
      message's documents stay together. */
  lemma RunAddsNoDuplicates(args: Arguments, src: MailSource, stored: seq<Document>, batches: seq<seq<Document>>)
    requires Consistent(src)
    ensures var t := Ran(args, src, stored, batches);
      && |stored| <= |t.stored| && t.stored[..|stored|] == stored
      && (forall k :: |stored| <= k < |t.stored| ==>
           t.stored[k].metadata.messageId.Some? && !StoredMessageId(stored, t.stored[k].metadata.messageId.value))
      && (GroupedByMessage(stored) ==> GroupedByMessage(t.stored))
      && |batches| <= |t.batches|
      && forall k, i :: |batches| <= k < |t.batches| && 0 <= i < |t.batches[k]| ==>
        t.batches[k][i].metadata.messageId == t.batches[k][0].metadata.messageId
  {
    var job := JobOf(args, src);
    FreshKept(job);
    PagesKeep(job, (a, b) => FreshBatches(a, b), Tally(0, 0, 0, 0, stored, batches, []), None);
  }
}
