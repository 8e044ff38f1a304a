/**
  The in-memory backend: the stores `documents_store`, `embeddings_store` and
  `workflows_store` as fields of one `Server` object, one method per endpoint
  that changes them, and functions for the endpoints that only read them.
 */
module Backend {
  import opened Wrappers
  import opened PyStr
  import opened Chunking
  import opened Decimal
  import opened Retrieval

  const PDF_SUFFIX := ".pdf"
  const PREVIEW_LENGTH: nat := 500
  const OPENAI_CHUNK_SIZE: nat := 8000
  const MOCK_CHUNK_SIZE: nat := 1000
  const MOCK_DIMENSIONS: nat := 1536
  const UPLOAD_ERROR_PREFIX := "Error processing document: "
  /** The 400 raised for a non-PDF name, as the broad `except` re-wraps it into a 500. */
  const ONLY_PDF_DETAIL := UPLOAD_ERROR_PREFIX + "400: Only PDF files are supported"
  const NOT_FOUND_DETAIL := "Document not found"
  const SAVED_MESSAGE := "Workflow saved successfully"

  datatype Document = Document(filename: string, text: string, uploadTime: int, wordCount: nat)

  /** A vector from the remote embedding model, or one of random floats of which only the size is kept. */
  datatype Embedding = Remote(values: seq<real>) | RandomVector(dimensions: nat)

  datatype EmbeddingRecord = EmbeddingRecord(embeddings: seq<Embedding>, chunks: seq<string>, provider: Provider)

  /** The untyped `data` of a canvas node. */
  datatype Json =
    | JNull
    | JBool(b: bool)
    | JNumber(x: real)
    | JString(s: string)
    | JArray(items: seq<Json>)
    | JObject(fields: map<string, Json>)

  datatype WorkflowNode = WorkflowNode(id: string, kind: string, position: map<string, real>, data: map<string, Json>)
  datatype WorkflowEdge = WorkflowEdge(id: string, source: string, target: string)
  datatype SavedWorkflow = SavedWorkflow(nodes: seq<WorkflowNode>, edges: seq<WorkflowEdge>, createdAt: int)

  datatype HttpError = HttpError(status: nat, detail: string)

  datatype UploadReply = UploadReply(documentId: string, filename: string, textLength: nat, wordCount: nat, preview: string)
  datatype EmbeddingReply = EmbeddingReply(documentId: string, embeddingsCount: nat, provider: Provider, chunksCount: nat)
  datatype EmbeddingSummary = EmbeddingSummary(provider: Provider, chunksCount: nat)
  datatype SaveReply = SaveReply(workflowId: string, message: string)

  /** An uploaded file as the PDF library sees it: the text of each page, or the reason it could not be opened. */
  datatype PdfFile = Pages(pages: seq<string>) | Unreadable(reason: string)

  /**
    The remote embedding model: `Unavailable` when no key is set or the client
    cannot be created; otherwise `embed` answers one chunk, `None` standing for a
    failed call.
   */
  datatype EmbeddingService = Unavailable | Available(embed: string -> Option<seq<real>>)

  /** `f"doc_{now}"`: the prefix, then the decimal digits of the clock reading. */
  function DocumentId(now: nat): (id: string)
    ensures |id| > 4 && id[..4] == "doc_"
    ensures forall i :: 4 <= i < |id| ==> IsDigit(id[i])
    ensures id[4] == '0' ==> now == 0
    ensures ParseDigits(id[4..]) == now
  {
    ParseNatToString(now);
    assert Tagged("doc_", now)[4..] == NatToString(now);
    Tagged("doc_", now)
  }

  /** `f"workflow_{now}"`: the prefix, then the decimal digits of the clock reading. */
  function WorkflowId(now: nat): (id: string)
    ensures |id| > 9 && id[..9] == "workflow_"
    ensures forall i :: 9 <= i < |id| ==> IsDigit(id[i])
    ensures id[9] == '0' ==> now == 0
    ensures ParseDigits(id[9..]) == now
  {
    ParseNatToString(now);
    assert Tagged("workflow_", now)[9..] == NatToString(now);
    Tagged("workflow_", now)
  }

  /** Documents uploaded in different seconds get different ids. */
  lemma DocumentIdInjective(a: nat, b: nat)
    requires DocumentId(a) == DocumentId(b)
    ensures a == b
  {
    TaggedInjective("doc_", a, b);
  }

  lemma WorkflowIdInjective(a: nat, b: nat)
    requires WorkflowId(a) == WorkflowId(b)
    ensures a == b
  {
    TaggedInjective("workflow_", a, b);
  }

  function ChunkSize(p: Provider): nat {
    if p == OpenAI then OPENAI_CHUNK_SIZE else MOCK_CHUNK_SIZE
  }

  /** One embedding per chunk; the chunks are the fixed-size cut of their own concatenation; mock vectors have 1536 entries. */
  ghost predicate RecordValid(e: EmbeddingRecord) {
    && |e.embeddings| == |e.chunks|
    && e.chunks == Chunks(Concat(e.chunks), ChunkSize(e.provider))
    && (e.provider == Mock ==> forall i :: 0 <= i < |e.embeddings| ==> e.embeddings[i] == RandomVector(MOCK_DIMENSIONS))
  }

  predicate AllEmbedded(chunks: seq<string>, embed: string -> Option<seq<real>>) {
    forall i :: 0 <= i < |chunks| ==> embed(chunks[i]).Some?
  }

  function RemoteVectors(chunks: seq<string>, embed: string -> Option<seq<real>>): (es: seq<Embedding>)
    requires AllEmbedded(chunks, embed)
    ensures |es| == |chunks|
    ensures forall i :: 0 <= i < |chunks| ==> es[i] == Remote(embed(chunks[i]).value)
  {
    seq(|chunks|, i requires 0 <= i < |chunks| => Remote(embed(chunks[i]).value))
  }

  /**
    What `generate_embeddings` stores for a text: remote vectors of its
    8000-character chunks when every remote call succeeds, otherwise random
    vectors of its 1000-character chunks.
   */
  function RecordFor(text: string, service: EmbeddingService): (e: EmbeddingRecord)
    ensures RecordValid(e)
    ensures e.chunks == Chunks(text, ChunkSize(e.provider))
    ensures e.provider == OpenAI <==> service.Available? && AllEmbedded(Chunks(text, OPENAI_CHUNK_SIZE), service.embed)
    ensures e.provider == OpenAI ==> e.embeddings == RemoteVectors(e.chunks, service.embed)
  {
    var remote := Chunks(text, OPENAI_CHUNK_SIZE);
    if service.Available? && AllEmbedded(remote, service.embed) then
      ChunksConcat(text, OPENAI_CHUNK_SIZE);
      EmbeddingRecord(RemoteVectors(remote, service.embed), remote, OpenAI)
    else
      var chunks := Chunks(text, MOCK_CHUNK_SIZE);
      ChunksConcat(text, MOCK_CHUNK_SIZE);
      EmbeddingRecord(seq(|chunks|, _ => RandomVector(MOCK_DIMENSIONS)), chunks, Mock)
  }

  /** On both paths the number of embeddings is the number of chunks, ceil(|text| / chunk size). */
  lemma RecordForCounts(text: string, service: EmbeddingService)
    ensures var e := RecordFor(text, service);
      |e.embeddings| == |e.chunks| == (|text| + ChunkSize(e.provider) - 1) / ChunkSize(e.provider)
  {
    var e := RecordFor(text, service);
    ChunksCount(text, ChunkSize(e.provider));
  }

  /** `text += page.get_text()` for every page. */
  method ExtractText(pages: seq<string>) returns (text: string)
    ensures text == Concat(pages)
  {
    text := "";
    var i := 0;
    while i < |pages|
      invariant 0 <= i <= |pages|
      invariant text == Concat(pages[..i])
    {
      ConcatSnoc(pages[..i], pages[i]);
      assert pages[..i + 1] == pages[..i] + [pages[i]];
      text := text + pages[i];
      i := i + 1;
    }
    assert pages[..|pages|] == pages;
  }

  /** One remote call per chunk; the first failure abandons the remote path. */
  method EmbedRemotely(chunks: seq<string>, embed: string -> Option<seq<real>>) returns (vectors: Option<seq<Embedding>>)
    ensures vectors.Some? <==> AllEmbedded(chunks, embed)
    ensures vectors.Some? ==> vectors.value == RemoteVectors(chunks, embed)
  {
    var acc: seq<Embedding> := [];
    var i := 0;
    while i < |chunks|
      invariant 0 <= i <= |chunks|
      invariant |acc| == i
      invariant forall k :: 0 <= k < i ==> embed(chunks[k]).Some? && acc[k] == Remote(embed(chunks[k]).value)
    {
      var answer := embed(chunks[i]);
      if answer.None? {
        return None;
      }
      acc := acc + [Remote(answer.value)];
      i := i + 1;
    }
    return Some(acc);
  }

  /** One random 1536-dimensional vector per chunk. */
  method EmbedRandomly(chunks: seq<string>) returns (vectors: seq<Embedding>)
    ensures |vectors| == |chunks|
    ensures forall i :: 0 <= i < |vectors| ==> vectors[i] == RandomVector(MOCK_DIMENSIONS)
  {
    vectors := [];
    var i := 0;
    while i < |chunks|
      invariant 0 <= i <= |chunks|
      invariant |vectors| == i
      invariant forall k :: 0 <= k < i ==> vectors[k] == RandomVector(MOCK_DIMENSIONS)
    {
      vectors := vectors + [RandomVector(MOCK_DIMENSIONS)];
      i := i + 1;
    }
  }

  /**
    The embedding part of `generate_embeddings`: remote vectors of the
    8000-character chunks, or, when there is no service or a call fails, random
    vectors of the 1000-character chunks.
   */
  method BuildRecord(text: string, service: EmbeddingService) returns (record: EmbeddingRecord)
    ensures record == RecordFor(text, service)
  {
    record := EmbeddingRecord([], [], Mock);
    var remoteDone := false;
    if service.Available? {
      var chunks := Chunks(text, OPENAI_CHUNK_SIZE);
      var vectors := EmbedRemotely(chunks, service.embed);
      if vectors.Some? {
        record := EmbeddingRecord(vectors.value, chunks, OpenAI);
        remoteDone := true;
      }
    }
    if !remoteDone {
      var chunks := Chunks(text, MOCK_CHUNK_SIZE);
      var vectors := EmbedRandomly(chunks);
      record := EmbeddingRecord(vectors, chunks, Mock);
    }
  }

  class Server {
    var documents: map<string, Document>
    /** The keys of `documents` in insertion order, which a Python dict keeps (an overwrite keeps the old place). */
    var documentOrder: seq<string>
    var embeddings: map<string, EmbeddingRecord>
    var workflows: map<string, SavedWorkflow>

    ghost predicate Valid()
      reads this
    {
      && (forall i, j :: 0 <= i < j < |documentOrder| ==> documentOrder[i] != documentOrder[j])
      && (forall k :: k in documents <==> k in documentOrder)
      && (forall k :: k in documents ==> documents[k].wordCount == |Words(documents[k].text)|)
      && (forall k :: k in embeddings ==> k in documents && RecordValid(embeddings[k]))
    }

    constructor ()
      ensures Valid()
      ensures documents == map[] && documentOrder == [] && embeddings == map[] && workflows == map[]
    {
      documents := map[];
      documentOrder := [];
      embeddings := map[];
      workflows := map[];
    }

    /**
      `upload_document`: the file's name must end in ".pdf"; its extracted text is
      stored under "doc_<now>" with its word count and `now` as upload time.
     */
    method UploadDocument(filename: string, file: PdfFile, now: nat) returns (r: Result<UploadReply, HttpError>)
      requires Valid()
      modifies this
      ensures Valid()
      ensures embeddings == old(embeddings) && workflows == old(workflows)
      ensures !EndsWith(filename, PDF_SUFFIX) ==> r == Failure(HttpError(500, ONLY_PDF_DETAIL))
      ensures EndsWith(filename, PDF_SUFFIX) && file.Unreadable? ==>
        r == Failure(HttpError(500, UPLOAD_ERROR_PREFIX + file.reason))
      ensures r.Success? <==> EndsWith(filename, PDF_SUFFIX) && file.Pages?
      ensures r.Failure? ==> documents == old(documents) && documentOrder == old(documentOrder)
      ensures r.Success? ==>
        var text := Concat(file.pages);
        var id := DocumentId(now);
        && documents == old(documents)[id := Document(filename, text, now, |Words(text)|)]
        && (forall k :: k in old(documents) && k != id ==> k in documents && documents[k] == old(documents)[k])
        && documentOrder == (if id in old(documents) then old(documentOrder) else old(documentOrder) + [id])
        && r.value == UploadReply(id, filename, |text|, |Words(text)|, Truncate(text, PREVIEW_LENGTH))
        && r.value.wordCount == documents[id].wordCount
    {
      if !EndsWith(filename, PDF_SUFFIX) {
        return Failure(HttpError(500, ONLY_PDF_DETAIL));
      }
      if file.Unreadable? {
        return Failure(HttpError(500, UPLOAD_ERROR_PREFIX + file.reason));
      }
      var text := ExtractText(file.pages);
      var id := DocumentId(now);
      var wordCount := |Words(text)|;
      if id !in documents {
        documentOrder := documentOrder + [id];
      }
      documents := documents[id := Document(filename, text, now, wordCount)];
      r := Success(UploadReply(id, filename, |text|, wordCount, Truncate(text, PREVIEW_LENGTH)));
    }

    /**
      `generate_embeddings`: 404 for an unknown document; otherwise the record
      `RecordFor` gives for the document's text replaces any earlier one.
     */
    method GenerateEmbeddings(docId: string, service: EmbeddingService) returns (r: Result<EmbeddingReply, HttpError>)
      requires Valid()
      modifies this
      ensures Valid()
      ensures documents == old(documents) && documentOrder == old(documentOrder) && workflows == old(workflows)
      ensures docId !in old(documents) ==>
        r == Failure(HttpError(404, NOT_FOUND_DETAIL)) && embeddings == old(embeddings)
      ensures docId in old(documents) ==>
        var e := RecordFor(old(documents)[docId].text, service);
        && embeddings == old(embeddings)[docId := e]
        && r == Success(EmbeddingReply(docId, |e.embeddings|, e.provider, |e.chunks|))
        && r.value.embeddingsCount == r.value.chunksCount
    {
      if docId !in documents {
        return Failure(HttpError(404, NOT_FOUND_DETAIL));
      }
      var record := BuildRecord(documents[docId].text, service);
      embeddings := embeddings[docId := record];
      r := Success(EmbeddingReply(docId, |record.embeddings|, record.provider, |record.chunks|));
    }

    /** `save_workflow`: the nodes and edges, verbatim, under "workflow_<now>". */
    method SaveWorkflow(nodes: seq<WorkflowNode>, edges: seq<WorkflowEdge>, now: nat) returns (r: SaveReply)
      requires Valid()
      modifies this
      ensures Valid()
      ensures documents == old(documents) && documentOrder == old(documentOrder) && embeddings == old(embeddings)
      ensures workflows == old(workflows)[WorkflowId(now) := SavedWorkflow(nodes, edges, now)]
      ensures r == SaveReply(WorkflowId(now), SAVED_MESSAGE)
    {
      var id := WorkflowId(now);
      workflows := workflows[id := SavedWorkflow(nodes, edges, now)];
      r := SaveReply(id, SAVED_MESSAGE);
    }

    /** Upload times of the documents, in insertion order. */
    function UploadTimes(): (ts: seq<int>)
      reads this
      requires Valid()
      ensures |ts| == |documentOrder|
      ensures forall i :: 0 <= i < |documentOrder| ==> ts[i] == documents[documentOrder[i]].uploadTime
    {
      var docs, order := documents, documentOrder;
      seq(|order|, i requires 0 <= i < |order| => docs[order[i]].uploadTime)
    }

    lemma OrderNonEmpty()
      requires Valid() && |documents| > 0
      ensures |documentOrder| > 0
    {
      assert documents.Keys != {};
      var k :| k in documents.Keys;
      assert k in documentOrder;
    }

    /**
      `max(documents_store.keys(), key=upload_time)`: a stored document with the
      latest upload time, the first such in insertion order.
     */
    function LatestDocumentId(): (id: string)
      reads this
      requires Valid() && |documents| > 0
      ensures id in documents
      ensures forall k :: k in documents ==> documents[k].uploadTime <= documents[id].uploadTime
      ensures forall i, j :: 0 <= i < j < |documentOrder| && documentOrder[j] == id ==>
        documents[documentOrder[i]].uploadTime < documents[id].uploadTime
    {
      OrderNonEmpty();
      var ts := UploadTimes();
      var m := LatestIndex(ts);
      var id := documentOrder[m];
      assert forall k :: k in documents ==> documents[k].uploadTime <= documents[id].uploadTime by {
        forall k | k in documents ensures documents[k].uploadTime <= documents[id].uploadTime {
          var i :| 0 <= i < |documentOrder| && documentOrder[i] == k;
          assert ts[i] <= ts[m];
        }
      }
      id
    }

    /**
      `execute_workflow`: the fixed message when no document was uploaded,
      otherwise the answer built from the most recent document.
     */
    function ExecuteWorkflow(query: string, chat: Option<string>, pick: nat): (r: Reply)
      reads this
      requires Valid() && pick < 3
      ensures |documents| == 0 <==> r == NoDocuments(NO_DOCUMENTS_MESSAGE)
      ensures |documents| > 0 ==>
        var doc := documents[LatestDocumentId()];
        r == Answer(doc.filename, doc.text, query, chat, pick)
    {
      if |documents| == 0 then NoDocuments(NO_DOCUMENTS_MESSAGE)
      else
        var doc := documents[LatestDocumentId()];
        Answer(doc.filename, doc.text, query, chat, pick)
    }

    /** `get_embeddings`: per document, the provider and the number of chunks, which is the number of embeddings. */
    function EmbeddingsSummary(): (m: map<string, EmbeddingSummary>)
      reads this
      requires Valid()
      ensures m.Keys == embeddings.Keys
      ensures forall k :: k in m ==>
        && m[k].provider == embeddings[k].provider
        && m[k].chunksCount == |embeddings[k].chunks|
        && m[k].chunksCount == |embeddings[k].embeddings|
    {
      map k | k in embeddings :: EmbeddingSummary(embeddings[k].provider, |embeddings[k].chunks|)
    }
  }
}
