/**
 * `EmailIngestionService.ingest`: pages through the inbox, skips messages without an
 * id, already stored, with a blank body or without chunks, and stores every remaining
 * chunk as its own document. `inserted` counts documents, not messages.
 */
module EmailIngestionService {
  import opened Wrappers
  import opened JavaText
  import opened TextChunker
  import opened MailIngestion

  /** `IngestionProperties` */
  datatype IngestionProperties = IngestionProperties(
    lookbackHours: int, maxMessages: int, pageSize: int, chunkSize: int, chunkOverlap: int,
    includeSent: bool)

  /** `IngestionResult` */
  datatype IngestionResult = IngestionResult(processed: int, inserted: int, skipped: int)

  // ---- settings and query ----------------------------------------------------------

  /** The values `ingest` works with once the properties are clamped, and its query. */
  datatype Job = Job(src: MailSource, query: string, maxMessages: int, pageSize: int, chunkSize: int, chunkOverlap: int)

  function JobOf(p: IngestionProperties, src: MailSource): (j: Job)
    ensures j.maxMessages >= 1 && j.pageSize >= 1 && j.chunkSize >= 1 && j.chunkOverlap >= 0
    ensures p.maxMessages >= 1 ==> j.maxMessages == p.maxMessages
    ensures p.pageSize >= 1 ==> j.pageSize == p.pageSize
    ensures p.chunkSize >= 1 ==> j.chunkSize == p.chunkSize
    ensures p.chunkOverlap >= 0 ==> j.chunkOverlap == p.chunkOverlap
    ensures j.query == BuildQuery(p.lookbackHours) && j.src == src
  {
    Job(src, BuildQuery(p.lookbackHours), Max(1, p.maxMessages), Max(1, p.pageSize),
        Max(1, p.chunkSize), Max(0, p.chunkOverlap))
  }

  const BaseQuery: string := "in:inbox -from:me"
  const NewerThan: string := " newer_than:"

  /** `buildQuery`: the inbox without own mail, narrowed to the last hours when positive. */
  function BuildQuery(lookbackHours: int): (q: string)
    ensures lookbackHours <= 0 ==> q == BaseQuery
    ensures lookbackHours > 0 ==> StartsWith(q, BaseQuery + NewerThan) && q[|q| - 1] == 'h'
  {
    if lookbackHours <= 0 then BaseQuery
    else
      var q := BaseQuery + NewerThan + IntToString(lookbackHours) + "h";
      assert q[..|BaseQuery + NewerThan|] == BaseQuery + NewerThan;
      q
  }

  /** The hours in a narrowed query read back as the number they were written from. */
  lemma BuildQueryReadsBack(lookbackHours: int)
    requires 0 < lookbackHours <= IntMax
    ensures var q, p := BuildQuery(lookbackHours), BaseQuery + NewerThan;
      |p| < |q| && ParseInt(q[|p|..|q| - 1]) == Some(lookbackHours)
  {
    var p := BaseQuery + NewerThan;
    var d := IntToString(lookbackHours);
    var q := p + d + "h";
    assert q[|p|..|q| - 1] == d;
    ParseIntOfIntToString(lookbackHours);
  }

  // ---- the loop as a function ------------------------------------------------------

  /** The loop's counters and the store, with the batches passed to `add` and the pages
      requested so far. */
  datatype Tally = Tally(
    processed: int, inserted: int, skipped: int,
    stored: seq<Document>, batches: seq<seq<Document>>, requests: seq<PageRequest>)

  function Skip(t: Tally): Tally {
    t.(processed := t.processed + 1, skipped := t.skipped + 1)
  }

  /** Each document passed to `add` on its own. */
  function Singletons(ds: seq<Document>): (r: seq<seq<Document>>)
    ensures |r| == |ds| && forall k :: 0 <= k < |ds| ==> r[k] == [ds[k]]
  {
    seq(|ds|, k requires 0 <= k < |ds| => [ds[k]])
  }

  /** One summary of a page. */
  function Examine(job: Job, t: Tally, m: MessageSummary): (r: Tally)
    ensures r.processed == t.processed + 1 && r.requests == t.requests
  {
    if IsNullOrBlank(m.messageId) then Skip(t)
    else if StoredMessageId(t.stored, m.messageId.value) then Skip(t)
    else
      var c := job.src.fetch(m.messageId.value);
      if IsNullOrBlank(c.plainTextBody) then Skip(t)
      else
        var chunks := Chunked(c.plainTextBody, job.chunkSize, job.chunkOverlap);
        if chunks == [] then Skip(t)
        else
          var docs := ChunkDocuments(c, chunks);
          t.(processed := t.processed + 1, inserted := t.inserted + |docs|,
             stored := t.stored + docs, batches := t.batches + Singletons(docs))
  }

  /** The summaries of one page, until `maxMessages` have been examined. */
  function ExamineAll(job: Job, t: Tally, ms: seq<MessageSummary>): (r: Tally)
    ensures t.processed <= r.processed <= Max(t.processed, job.maxMessages)
    ensures t.processed < job.maxMessages && ms != [] ==> t.processed < r.processed
    ensures r.requests == t.requests
    decreases |ms|
  {
    if ms == [] || t.processed >= job.maxMessages then t
    else ExamineAll(job, Examine(job, t, ms[0]), ms[1..])
  }

  /** How many summaries the next page request asks for. */
  function BatchSize(job: Job, t: Tally): int {
    Min(job.pageSize, job.maxMessages - t.processed)
  }

  /** The tally once the page at `token` is requested. */
  function Requested(job: Job, t: Tally, token: Option<string>): Tally {
    t.(requests := t.requests + [PageRequest(job.query, BatchSize(job, t), token)])
  }

  /** The paging loop from the page at `token` on. */
  function Pages(job: Job, t: Tally, token: Option<string>): (r: Tally)
    ensures t.processed <= r.processed <= Max(t.processed, job.maxMessages)
    decreases job.maxMessages - t.processed
  {
    if t.processed >= job.maxMessages then t
    else
      var batch := BatchSize(job, t);
      var t1 := Requested(job, t, token);
      var page := job.src.list(job.query, batch, token);
      var ms := Summaries(page);
      if ms == [] then t1
      else
        var t2 := ExamineAll(job, t1, ms);
        if NextToken(page).None? then t2 else Pages(job, t2, NextToken(page))
  }

  /** What `ingest` ends with, on a store holding `stored` after the add calls `batches`. */
  function Ingested(p: IngestionProperties, src: MailSource, stored: seq<Document>, batches: seq<seq<Document>>): Tally {
    Pages(JobOf(p, src), Tally(0, 0, 0, stored, batches, []), None)
  }

  /** One turn of the paging loop that finds an empty page. */
  lemma PagesEnd(job: Job, t: Tally, token: Option<string>, t1: Tally, page: MessagePage)
    requires t.processed < job.maxMessages
    requires t1 == Requested(job, t, token)
    requires page == job.src.list(job.query, Min(job.pageSize, job.maxMessages - t.processed), token)
    requires Summaries(page) == []
    ensures Pages(job, t, token) == t1
  {
  }

  /** One turn of the paging loop that examines a page. */
  lemma PagesOn(job: Job, t: Tally, token: Option<string>, t1: Tally, page: MessagePage, t2: Tally)
    requires t.processed < job.maxMessages
    requires t1 == Requested(job, t, token)
    requires page == job.src.list(job.query, Min(job.pageSize, job.maxMessages - t.processed), token)
    requires Summaries(page) != [] && t2 == ExamineAll(job, t1, Summaries(page))
    ensures NextToken(page).None? ==> Pages(job, t, token) == t2
    ensures NextToken(page).Some? ==> Pages(job, t, token) == Pages(job, t2, NextToken(page))
  {
  }

  // ---- the loop ----------------------------------------------------------------------

  /** `ingest` */
  method Ingest(p: IngestionProperties, src: MailSource, store: VectorStore) returns (result: IngestionResult, ghost requests: seq<PageRequest>)
    modifies store
    ensures var t := Ingested(p, src, old(store.documents), old(store.batches));
      && result == IngestionResult(t.processed, t.inserted, t.skipped)
      && store.documents == t.stored && store.batches == t.batches && requests == t.requests
  {
    var job := JobOf(p, src);
    var processed, inserted, skipped := 0, 0, 0;
    var pageToken: Option<string> := None;
    requests := [];
    ghost var total := Ingested(p, src, store.documents, store.batches);
    while processed < job.maxMessages
      invariant 0 <= processed <= job.maxMessages
      invariant Pages(job, Tally(processed, inserted, skipped, store.documents, store.batches, requests), pageToken) == total
      decreases job.maxMessages - processed
    {
      ghost var t := Tally(processed, inserted, skipped, store.documents, store.batches, requests);
      var batch := Min(job.pageSize, job.maxMessages - processed);
      var page := job.src.list(job.query, batch, pageToken);
      requests := requests + [PageRequest(job.query, batch, pageToken)];
      ghost var t1 := Tally(processed, inserted, skipped, store.documents, store.batches, requests);
      if page.messages.None? || page.messages.value == [] {
        PagesEnd(job, t, pageToken, t1, page);
        break;
      }
      processed, inserted, skipped := ExaminePage(job, store, page.messages.value, processed, inserted, skipped, requests);
      PagesOn(job, t, pageToken, t1, page, Tally(processed, inserted, skipped, store.documents, store.batches, requests));
      pageToken := page.nextPageToken;
      if pageToken.None? || IsBlank(pageToken.value) {
        break;
      }
    }
    result := IngestionResult(processed, inserted, skipped);
  }

  /** The loop over one page's summaries, which stops once `maxMessages` are examined. */
  method ExaminePage(job: Job, store: VectorStore, ms: seq<MessageSummary>, processed: int, inserted: int, skipped: int, ghost requests: seq<PageRequest>)
    returns (processed': int, inserted': int, skipped': int)
    requires processed < job.maxMessages && ms != []
    modifies store
    ensures processed < processed' <= job.maxMessages
    ensures Tally(processed', inserted', skipped', store.documents, store.batches, requests)
      == ExamineAll(job, Tally(processed, inserted, skipped, old(store.documents), old(store.batches), requests), ms)
  {
    ghost var before := Tally(processed, inserted, skipped, store.documents, store.batches, requests);
    processed', inserted', skipped' := processed, inserted, skipped;
    var i := 0;
    while i < |ms|
      invariant 0 <= i <= |ms|
      invariant processed <= processed' <= job.maxMessages
      invariant i == 0 ==> processed' == processed
      invariant i > 0 ==> processed' > processed
      invariant ExamineAll(job, Tally(processed', inserted', skipped', store.documents, store.batches, requests), ms[i..])
        == ExamineAll(job, before, ms)
    {
      if processed' >= job.maxMessages {
        break;
      }
      processed', inserted', skipped' := ExamineMessage(job, store, ms[i], processed', inserted', skipped', requests);
      i := i + 1;
    }
  }

  /** The body of the loop over one page's summaries. */
  method ExamineMessage(job: Job, store: VectorStore, m: MessageSummary, processed: int, inserted: int, skipped: int, ghost requests: seq<PageRequest>)
    returns (processed': int, inserted': int, skipped': int)
    modifies store
    ensures Tally(processed', inserted', skipped', store.documents, store.batches, requests)
      == Examine(job, Tally(processed, inserted, skipped, old(store.documents), old(store.batches), requests), m)
  {
    processed' := processed + 1;
    inserted', skipped' := inserted, skipped;
    var messageId := m.messageId;
    if messageId.None? || IsBlank(messageId.value) {
      skipped' := skipped + 1;
      return;
    }
    if store.HasMessageId(messageId.value) {
      skipped' := skipped + 1;
      return;
    }
    var content := job.src.fetch(messageId.value);
    var body := content.plainTextBody;
    if body.None? || IsBlank(body.value) {
      skipped' := skipped + 1;
      return;
    }
    var chunks := Chunk(body, job.chunkSize, job.chunkOverlap);
    if chunks == [] {
      skipped' := skipped + 1;
      return;
    }
    var added := StoreChunks(store, content, chunks);
    inserted' := inserted + added;
  }

  /** The chunk loop: one `add` per non-blank chunk. */
  method StoreChunks(store: VectorStore, c: MessageContent, chunks: seq<string>) returns (added: int)
    modifies store
    ensures store.documents == old(store.documents) + ChunkDocuments(c, chunks)
    ensures store.batches == old(store.batches) + Singletons(ChunkDocuments(c, chunks))
    ensures added == |ChunkDocuments(c, chunks)|
  {
    added := 0;
    var i := 0;
    while i < |chunks|
      invariant 0 <= i <= |chunks|
      invariant store.documents == old(store.documents) + DocumentsUpTo(c, chunks, i)
      invariant store.batches == old(store.batches) + Singletons(DocumentsUpTo(c, chunks, i))
      invariant added == |DocumentsUpTo(c, chunks, i)|
    {
      ghost var prev := DocumentsUpTo(c, chunks, i);
      if !IsBlank(chunks[i]) {
        var doc := ChunkDocument(c, chunks, i);
        store.Add([doc]);
        added := added + 1;
        SingletonsAppend(prev, [doc]);
        assert store.documents == old(store.documents) + (prev + [doc]);
      }
      i := i + 1;
    }
  }

  // ---- what the loop keeps -----------------------------------------------------------

  /** A relation between an earlier and a later tally that every step of the loop keeps. */
  ghost predicate KeptBySteps(job: Job, R: (Tally, Tally) -> bool) {
    && (forall t :: R(t, t))
    && (forall a, b, c :: R(a, b) && R(b, c) ==> R(a, c))
    && (forall t, m :: R(t, Examine(job, t, m)))
    && (forall t: Tally, token: Option<string> :: t.processed < job.maxMessages ==> R(t, Requested(job, t, token)))
  }

  lemma {:induction false} ExamineAllKeeps(job: Job, R: (Tally, Tally) -> bool, t: Tally, ms: seq<MessageSummary>)
    requires KeptBySteps(job, R)
    ensures R(t, ExamineAll(job, t, ms))
    decreases |ms|
  {
    if ms != [] && t.processed < job.maxMessages {
      var t1 := Examine(job, t, ms[0]);
      ExamineAllKeeps(job, R, t1, ms[1..]);
      assert R(t, t1);
    }
  }

  lemma {:induction false} PagesKeep(job: Job, R: (Tally, Tally) -> bool, t: Tally, token: Option<string>)
    requires KeptBySteps(job, R)
    ensures R(t, Pages(job, t, token))
    decreases job.maxMessages - t.processed
  {
    if t.processed < job.maxMessages {
      var t1 := Requested(job, t, token);
      var page := job.src.list(job.query, BatchSize(job, t), token);
      var ms := Summaries(page);
      assert R(t, t1);
      if ms != [] {
        var t2 := ExamineAll(job, t1, ms);
        ExamineAllKeeps(job, R, t1, ms);
        if NextToken(page).Some? {
          PagesKeep(job, R, t2, NextToken(page));
        }
      }
    }
  }

  // ---- one message -------------------------------------------------------------------

  /** A message is skipped, with the store and `inserted` unchanged, exactly when its id
      is null or blank, its id is already stored, or its body is null or blank. */
  lemma ExamineSkips(job: Job, t: Tally, m: MessageSummary)
    ensures Examine(job, t, m) == Skip(t) <==>
      || IsNullOrBlank(m.messageId)
      || StoredMessageId(t.stored, m.messageId.value)
      || IsNullOrBlank(job.src.fetch(m.messageId.value).plainTextBody)
  {
    if !IsNullOrBlank(m.messageId) && !StoredMessageId(t.stored, m.messageId.value) {
      var c := job.src.fetch(m.messageId.value);
      if !IsNullOrBlank(c.plainTextBody) {
        BodyDocuments(c, job.chunkSize, job.chunkOverlap);
      }
    }
  }

  /** Any other message adds one document per chunk of its body, in chunk order, each
      passed to `add` on its own, and `inserted` grows by the number of chunks. */
  lemma ExamineStores(job: Job, t: Tally, m: MessageSummary, c: MessageContent, chunks: seq<string>)
    requires !IsNullOrBlank(m.messageId) && !StoredMessageId(t.stored, m.messageId.value)
    requires c == job.src.fetch(m.messageId.value) && !IsNullOrBlank(c.plainTextBody)
    requires chunks == Chunked(c.plainTextBody, job.chunkSize, job.chunkOverlap)
    ensures var r := Examine(job, t, m);
      && r.stored == t.stored + ChunkDocuments(c, chunks)
      && r.batches == t.batches + Singletons(ChunkDocuments(c, chunks))
      && |ChunkDocuments(c, chunks)| == |chunks| > 0
      && (forall k :: 0 <= k < |chunks| ==> ChunkDocuments(c, chunks)[k] == ChunkDocument(c, chunks, k))
      && r.inserted == t.inserted + |chunks| && r.skipped == t.skipped
  {
    BodyDocuments(c, job.chunkSize, job.chunkOverlap);
  }

  // ---- counters and requests ---------------------------------------------------------

  /** `b` follows `a` in one run: `skipped` grows by at most what `processed` grows by,
      the store only grows, `inserted` grows by the number of new documents, and each
      new document went to `add` on its own. */
  ghost predicate Counted(a: Tally, b: Tally) {
    && a.processed <= b.processed
    && a.skipped <= b.skipped <= a.skipped + (b.processed - a.processed)
    && |a.stored| <= |b.stored| && b.stored[..|a.stored|] == a.stored
    && b.inserted - a.inserted == |b.stored| - |a.stored|
    && b.batches == a.batches + Singletons(b.stored[|a.stored|..])
  }

  lemma SingletonsAppend(x: seq<Document>, y: seq<Document>)
    ensures Singletons(x + y) == Singletons(x) + Singletons(y)
  {
  }

  lemma CountedTrans(a: Tally, b: Tally, c: Tally)
    requires Counted(a, b) && Counted(b, c)
    ensures Counted(a, c)
  {
    var x, y := b.stored[|a.stored|..], c.stored[|b.stored|..];
    PrefixChain(a.stored, b.stored, c.stored);
    BatchesChain(a.batches, b.batches, c.batches, x, y);
  }

  lemma BatchesChain(ab: seq<seq<Document>>, bb: seq<seq<Document>>, cb: seq<seq<Document>>, x: seq<Document>, y: seq<Document>)
    requires bb == ab + Singletons(x) && cb == bb + Singletons(y)
    ensures cb == ab + Singletons(x + y)
  {
    SingletonsAppend(x, y);
    assert cb == ab + (Singletons(x) + Singletons(y));
  }

  lemma ExamineCounted(job: Job, t: Tally, m: MessageSummary)
    ensures Counted(t, Examine(job, t, m))
  {
    var r := Examine(job, t, m);
    if r.stored == t.stored {
      assert r.stored[|t.stored|..] == [];
    } else {
      var docs := r.stored[|t.stored|..];
      assert r.stored == t.stored + docs;
    }
  }

  lemma CountedKept(job: Job)
    ensures KeptBySteps(job, (a, b) => Counted(a, b))
  {
    forall t: Tally ensures Counted(t, t) {
      assert t.stored[|t.stored|..] == [];
    }
    forall a: Tally, b: Tally, c: Tally | Counted(a, b) && Counted(b, c) ensures Counted(a, c) {
      CountedTrans(a, b, c);
    }
    forall t, m ensures Counted(t, Examine(job, t, m)) {
      ExamineCounted(job, t, m);
    }
    forall t: Tally, token: Option<string> | t.processed < job.maxMessages
      ensures Counted(t, Requested(job, t, token))
    {
      assert t.stored[|t.stored|..] == [];
    }
  }

  /** `b` follows `a`: the page requests made in between all carry the query and ask for
      at least one and at most `pageSize` summaries. */
  ghost predicate RequestsWithin(job: Job, a: Tally, b: Tally) {
    && |a.requests| <= |b.requests| && b.requests[..|a.requests|] == a.requests
    && forall k :: |a.requests| <= k < |b.requests| ==>
      b.requests[k].query == job.query && 1 <= b.requests[k].batchSize <= job.pageSize
  }

  lemma RequestsKept(job: Job)
    requires job.pageSize >= 1
    ensures KeptBySteps(job, (a, b) => RequestsWithin(job, a, b))
  {
    forall a: Tally, b: Tally, c: Tally | RequestsWithin(job, a, b) && RequestsWithin(job, b, c)
      ensures RequestsWithin(job, a, c)
    {
      assert c.requests[..|b.requests|] == b.requests;
      forall k | |a.requests| <= k < |c.requests|
        ensures c.requests[k].query == job.query && 1 <= c.requests[k].batchSize <= job.pageSize
      {
        if k < |b.requests| {
          assert c.requests[k] == b.requests[k];
        }
      }
    }
  }

  /** What one run of `ingest` does to the counters, the store and the page requests. */
  lemma IngestCounts(p: IngestionProperties, src: MailSource, stored: seq<Document>, batches: seq<seq<Document>>)
    ensures var job := JobOf(p, src);
      var t := Ingested(p, src, stored, batches);
      && 0 <= t.processed <= job.maxMessages
      && 0 <= t.skipped <= t.processed
      && |stored| <= |t.stored| && t.stored[..|stored|] == stored
      && t.inserted == |t.stored| - |stored|
      && t.batches == batches + Singletons(t.stored[|stored|..])
      && forall k :: 0 <= k < |t.requests| ==>
        t.requests[k].query == job.query && 1 <= t.requests[k].batchSize <= job.pageSize
  {
    var job := JobOf(p, src);
    var t0 := Tally(0, 0, 0, stored, batches, []);
    CountedKept(job);
    PagesKeep(job, (a, b) => Counted(a, b), t0, None);
    RequestsKept(job);
    PagesKeep(job, (a, b) => RequestsWithin(job, a, b), t0, None);
  }

  // ---- de-duplication ----------------------------------------------------------------

  /** `b` follows `a`: its new documents carry message ids `a` had not stored. */
  ghost predicate FreshMessages(a: Tally, b: Tally) {
    AddsFreshIds(a.stored, b.stored)
  }

  lemma ExamineFresh(job: Job, t: Tally, m: MessageSummary)
    requires Consistent(job.src)
    ensures FreshMessages(t, Examine(job, t, m))
  {
    var r := Examine(job, t, m);
    if r.stored == t.stored {
      AddsFreshIdsRefl(t.stored);
    } else {
      var id := m.messageId.value;
      var c := job.src.fetch(id);
      var chunks := Chunked(c.plainTextBody, job.chunkSize, job.chunkOverlap);
      var docs := ChunkDocuments(c, chunks);
      assert !IsNullOrBlank(m.messageId) && !StoredMessageId(t.stored, id);
      ChunkDocumentsCarryId(c, chunks);
      assert c.messageId == Some(id);
      assert forall k :: 0 <= k < |docs| ==> docs[k].metadata.messageId == Some(id);
      AppendFresh(t.stored, docs, id);
    }
  }

  lemma FreshKept(job: Job)
    requires Consistent(job.src)
    ensures KeptBySteps(job, (a, b) => FreshMessages(a, b))
  {
    forall a: Tally, b: Tally, c: Tally | FreshMessages(a, b) && FreshMessages(b, c) ensures FreshMessages(a, c) {
      AddsFreshIdsTrans(a.stored, b.stored, c.stored);
    }
    forall t: Tally ensures FreshMessages(t, t) {
      AddsFreshIdsRefl(t.stored);
    }
    forall t: Tally, token: Option<string> | t.processed < job.maxMessages
      ensures FreshMessages(t, Requested(job, t, token))
    {
      AddsFreshIdsRefl(t.stored);
    }
    forall t, m ensures FreshMessages(t, Examine(job, t, m)) {
      ExamineFresh(job, t, m);
    }
  }

  /** Running `ingest` again over the same store adds no duplicates: when the source
      returns each message under the id it was fetched by, no new document carries a
      message id that was already stored, and every message's documents stay together. */
  lemma IngestAddsNoDuplicates(p: IngestionProperties, src: MailSource, stored: seq<Document>, batches: seq<seq<Document>>)
    requires Consistent(src)
    ensures var t := Ingested(p, src, stored, batches);
      && |stored| <= |t.stored| && t.stored[..|stored|] == stored
      && (forall k :: |stored| <= k < |t.stored| ==>
           t.stored[k].metadata.messageId.Some? && !StoredMessageId(stored, t.stored[k].metadata.messageId.value))
      && (GroupedByMessage(stored) ==> GroupedByMessage(t.stored))
  {
    var job := JobOf(p, src);
    FreshKept(job);
    PagesKeep(job, (a, b) => FreshMessages(a, b), Tally(0, 0, 0, stored, batches, []), None);
  }
}
