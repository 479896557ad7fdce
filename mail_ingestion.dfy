/**
 * What the two ingestion loops share: the records the mail client hands back, the
 * documents written to the vector store with their metadata, and the store itself,
 * a table of documents that can be asked whether a Gmail message id is already there.
 */
module MailIngestion {
  import opened Wrappers
  import opened JavaText
  import opened TextChunker

  // ---- the mail source -------------------------------------------------------------

  /** `GmailMessageSummary`; only the message id is read by the loops. */
  datatype MessageSummary = MessageSummary(
    messageId: Option<string>, threadId: Option<string>, subject: Option<string>,
    from: Option<string>, snippet: Option<string>)

  /** `GmailMessagePage`: a possibly null list of summaries and a possibly null token. */
  datatype MessagePage = MessagePage(messages: Option<seq<MessageSummary>>, nextPageToken: Option<string>)

  /** `GmailMessageContent`; `receivedAt` is the `toString` of the receive time. */
  datatype MessageContent = MessageContent(
    messageId: Option<string>, threadId: Option<string>, subject: Option<string>,
    from: Option<string>, receivedAt: Option<string>, snippet: Option<string>,
    plainTextBody: Option<string>)

  /** The client as the loops use it: `listMessages(query, batchSize, pageToken)` and
      `fetchMessageContent(messageId)`, as functions of their arguments. */
  datatype MailSource = MailSource(
    list: (string, int, Option<string>) -> MessagePage,
    fetch: string -> MessageContent)

  /** One call of `listMessages`. */
  datatype PageRequest = PageRequest(query: string, batchSize: int, pageToken: Option<string>)

  /** The page's summaries, or none for a null or empty list. */
  function Summaries(page: MessagePage): (ms: seq<MessageSummary>)
    ensures page.messages.None? ==> ms == []
    ensures page.messages.Some? ==> ms == page.messages.value
  {
    if page.messages.None? then [] else page.messages.value
  }

  /** A source whose contents carry the id they were fetched by. */
  ghost predicate Consistent(src: MailSource) {
    forall id: string :: src.fetch(id).messageId == Some(id)
  }

  // ---- documents -------------------------------------------------------------------

  /** The metadata map of a stored chunk. */
  datatype Metadata = Metadata(
    messageId: Option<string>, threadId: Option<string>, subject: Option<string>,
    from: Option<string>, receivedAt: Option<string>, snippet: Option<string>,
    chunkIndex: int, totalChunks: int)

  /** A stored `Document`: a chunk's text and its metadata. */
  datatype Document = Document(text: string, metadata: Metadata)

  /** The document for chunk `i` of a message cut into `chunks`. */
  function ChunkDocument(c: MessageContent, chunks: seq<string>, i: nat): (d: Document)
    requires i < |chunks|
    ensures d.text == chunks[i]
    ensures d.metadata.messageId == c.messageId
    ensures d.metadata.chunkIndex == i && d.metadata.totalChunks == |chunks|
  {
    Document(chunks[i], Metadata(c.messageId, c.threadId, c.subject, c.from, c.receivedAt, c.snippet, i, |chunks|))
  }

  /** The documents for the non-blank chunks among the first `n`, in chunk order. */
  function DocumentsUpTo(c: MessageContent, chunks: seq<string>, n: nat): (ds: seq<Document>)
    requires n <= |chunks|
    ensures |ds| <= n
  {
    if n == 0 then []
    else
      var earlier := DocumentsUpTo(c, chunks, n - 1);
      if IsBlank(chunks[n - 1]) then earlier else earlier + [ChunkDocument(c, chunks, n - 1)]
  }

  /** Each document holds a non-blank chunk, the chunk's index and the chunk count, and
      the message's id; the indices increase; with no blank chunk there is one document
      per chunk. */
  lemma {:induction false} DocumentsUpToMeans(c: MessageContent, chunks: seq<string>, n: nat)
    requires n <= |chunks|
    ensures var ds := DocumentsUpTo(c, chunks, n);
      && (forall k :: 0 <= k < |ds| ==>
        && 0 <= ds[k].metadata.chunkIndex < n && ds[k].metadata.totalChunks == |chunks|
        && ds[k].text == chunks[ds[k].metadata.chunkIndex] && !IsBlank(ds[k].text)
        && ds[k].metadata.messageId == c.messageId)
      && (forall k, l :: 0 <= k < l < |ds| ==> ds[k].metadata.chunkIndex < ds[l].metadata.chunkIndex)
      && ((forall k :: 0 <= k < n ==> !IsBlank(chunks[k])) ==>
        |ds| == n && forall k :: 0 <= k < n ==> ds[k] == ChunkDocument(c, chunks, k))
  {
    if n > 0 {
      DocumentsUpToMeans(c, chunks, n - 1);
      var earlier := DocumentsUpTo(c, chunks, n - 1);
      if !IsBlank(chunks[n - 1]) {
        var ds := earlier + [ChunkDocument(c, chunks, n - 1)];
        assert ds == DocumentsUpTo(c, chunks, n);
        assert forall k :: 0 <= k < |earlier| ==> ds[k] == earlier[k];
        assert ds[|earlier|].metadata.chunkIndex == n - 1;
      }
    }
  }

  /** Every document of a message carries the message's id. */
  lemma ChunkDocumentsCarryId(c: MessageContent, chunks: seq<string>)
    ensures forall k :: 0 <= k < |ChunkDocuments(c, chunks)| ==>
      ChunkDocuments(c, chunks)[k].metadata.messageId == c.messageId
  {
    assert ChunkDocuments(c, chunks) == DocumentsUpTo(c, chunks, |chunks|);
    DocumentsUpToMeans(c, chunks, |chunks|);
  }

  /** One document per non-blank chunk, tagged with its index and the chunk count. */
  function ChunkDocuments(c: MessageContent, chunks: seq<string>): seq<Document> {
    DocumentsUpTo(c, chunks, |chunks|)
  }

  /** The chunk loop that fills the batch of one message. */
  method BuildDocuments(c: MessageContent, chunks: seq<string>) returns (docs: seq<Document>)
    ensures docs == ChunkDocuments(c, chunks)
  {
    docs := [];
    var i := 0;
    while i < |chunks|
      invariant 0 <= i <= |chunks|
      invariant docs == DocumentsUpTo(c, chunks, i)
    {
      if !IsBlank(chunks[i]) {
        docs := docs + [ChunkDocument(c, chunks, i)];
      }
      i := i + 1;
    }
  }

  /** A body that is not blank is cut into non-blank chunks, at least one, and each
      becomes one document. */
  lemma BodyDocuments(c: MessageContent, chunkSize: int, chunkOverlap: int)
    requires !IsNullOrBlank(c.plainTextBody)
    ensures var chunks := Chunked(c.plainTextBody, chunkSize, chunkOverlap);
      && chunks != []
      && |ChunkDocuments(c, chunks)| == |chunks|
      && forall k :: 0 <= k < |chunks| ==> ChunkDocuments(c, chunks)[k] == ChunkDocument(c, chunks, k)
  {
    var chunks := Chunked(c.plainTextBody, chunkSize, chunkOverlap);
    NonBlankTextHasChunks(c.plainTextBody.value, chunkSize, chunkOverlap);
    DocumentsUpToMeans(c, chunks, |chunks|);
    ChunksWellFormed(c.plainTextBody, chunkSize, chunkOverlap);
    assert forall k :: 0 <= k < |chunks| ==> chunks[k] in chunks;
  }

  // ---- the store -------------------------------------------------------------------

  /** `metadata ->> 'message_id' = id` holds for some stored row. */
  predicate StoredMessageId(docs: seq<Document>, id: string) {
    exists k :: 0 <= k < |docs| && docs[k].metadata.messageId == Some(id)
  }

  /** The documents of one message lie next to each other. */
  ghost predicate GroupedByMessage(docs: seq<Document>) {
    forall i, j, k :: 0 <= i < j < k < |docs| && docs[i].metadata.messageId == docs[k].metadata.messageId
      ==> docs[j].metadata.messageId == docs[i].metadata.messageId
  }

  /** Appending the documents of a message that was not stored keeps messages grouped. */
  lemma GroupedAppend(a: seq<Document>, b: seq<Document>, id: string)
    requires GroupedByMessage(a)
    requires forall k :: 0 <= k < |b| ==> b[k].metadata.messageId == Some(id)
    requires !StoredMessageId(a, id)
    ensures GroupedByMessage(a + b)
  {
    var ab := a + b;
    forall i, j, k | 0 <= i < j < k < |ab| && ab[i].metadata.messageId == ab[k].metadata.messageId
      ensures ab[j].metadata.messageId == ab[i].metadata.messageId
    {
      if k < |a| {
        assert ab[i] == a[i] && ab[j] == a[j] && ab[k] == a[k];
      } else if |a| <= i {
        assert ab[j] == b[j - |a|] && ab[i] == b[i - |a|];
      }
    }
  }

  /** The documents of a sequence of batches, in order. */
  function Flatten(bs: seq<seq<Document>>): seq<Document> {
    if bs == [] then [] else bs[0] + Flatten(bs[1..])
  }

  lemma {:induction false} FlattenAppend(x: seq<seq<Document>>, y: seq<seq<Document>>)
    ensures Flatten(x + y) == Flatten(x) + Flatten(y)
    decreases |x|
  {
    if x != [] {
      assert (x + y)[1..] == x[1..] + y;
      FlattenAppend(x[1..], y);
    } else {
      assert x + y == y;
    }
  }

  /** `b` extends `a`, every document it adds carries a message id `a` had not stored,
      and messages grouped in `a` stay grouped. */
  ghost predicate AddsFreshIds(a: seq<Document>, b: seq<Document>) {
    && |a| <= |b| && b[..|a|] == a
    && (forall k :: |a| <= k < |b| ==>
         b[k].metadata.messageId.Some? && !StoredMessageId(a, b[k].metadata.messageId.value))
    && (GroupedByMessage(a) ==> GroupedByMessage(b))
  }

  lemma AddsFreshIdsRefl(a: seq<Document>)
    ensures AddsFreshIds(a, a)
  {
    assert a[..|a|] == a;
  }

  lemma StoredInPrefix(a: seq<Document>, b: seq<Document>, id: string)
    requires |a| <= |b| && b[..|a|] == a && StoredMessageId(a, id)
    ensures StoredMessageId(b, id)
  {
    var k :| 0 <= k < |a| && a[k].metadata.messageId == Some(id);
    assert b[k] == a[k];
  }

  lemma AddsFreshIdsTrans(a: seq<Document>, b: seq<Document>, c: seq<Document>)
    requires AddsFreshIds(a, b) && AddsFreshIds(b, c)
    ensures AddsFreshIds(a, c)
  {
    assert c[..|b|] == b;
    assert c[..|a|] == c[..|b|][..|a|];
    forall k | |a| <= k < |c|
      ensures c[k].metadata.messageId.Some? && !StoredMessageId(a, c[k].metadata.messageId.value)
    {
      if k < |b| {
        assert c[k] == b[k];
      } else {
        var id := c[k].metadata.messageId.value;
        if StoredMessageId(a, id) {
          StoredInPrefix(a, b, id);
        }
      }
    }
  }

  /** Appending the documents of one message whose id was not stored. */
  lemma AppendFresh(a: seq<Document>, docs: seq<Document>, id: string)
    requires forall k :: 0 <= k < |docs| ==> docs[k].metadata.messageId == Some(id)
    requires !StoredMessageId(a, id)
    ensures AddsFreshIds(a, a + docs)
  {
    var b := a + docs;
    assert b[..|a|] == a;
    forall k | |a| <= k < |b|
      ensures b[k].metadata.messageId == Some(id)
    {
      assert b[k] == docs[k - |a|];
    }
    if GroupedByMessage(a) {
      GroupedAppend(a, docs, id);
    }
  }

  /** Prefixes chain, and what the longest adds past the shortest is what each step added. */
  lemma PrefixChain<X>(a: seq<X>, b: seq<X>, c: seq<X>)
    requires |a| <= |b| && b[..|a|] == a
    requires |b| <= |c| && c[..|b|] == b
    ensures c[..|a|] == a
    ensures c[|a|..] == b[|a|..] + c[|b|..]
  {
    assert c[..|a|] == c[..|b|][..|a|];
    assert c == b + c[|b|..];
    assert b == a + b[|a|..];
  }

  /** The `email_embeddings` table behind the vector store, with a log of the batches
      passed to `add`. */
  class VectorStore {
    var documents: seq<Document>
    var batches: seq<seq<Document>>

    constructor(stored: seq<Document>)
      ensures documents == stored && batches == []
    {
      documents := stored;
      batches := [];
    }

    /** The de-duplication query: some stored row has this Gmail message id. */
    predicate HasMessageId(id: string)
      reads this
    {
      StoredMessageId(documents, id)
    }

    /** `VectorStore.add(docs)` */
    method Add(docs: seq<Document>)
      modifies this
      ensures documents == old(documents) + docs
      ensures batches == old(batches) + [docs]
    {
      documents := documents + docs;
      batches := batches + [docs];
    }
  }

  // ---- the end of paging -----------------------------------------------------------

  /** The paging loop goes on only with a non-null, non-blank next-page token. */
  function NextToken(page: MessagePage): (t: Option<string>)
    ensures t.Some? <==> !IsNullOrBlank(page.nextPageToken)
    ensures t.Some? ==> t == page.nextPageToken
  {
    if IsNullOrBlank(page.nextPageToken) then None else page.nextPageToken
  }
}
