/** build_index.py, `main`: combines the PDF and HTML documents, stops when there are none,
    and otherwise turns every chunk of every document into a chunk record with a fresh id.
    Loading, embedding, the FAISS and BM25 indexes and saving are not part of this model;
    the loaders' results are parameters, `uuid.uuid4()` is the id supply `freshId` (its
    n-th draw is `freshId(n)`), and `chunk_text` is the parameter `chunkText`. */
module BuildIndex {
  import opened Wrappers
  import opened Records
  import opened Chunking

  /** CHUNK_SIZE and CHUNK_OVERLAP of src/config.py. */
  const ChunkSize: int := 900
  const ChunkOverlap: int := 150

  /** `doc.get("source", doc_name)`. */
  function SourceOf(doc: Document): string
  {
    doc.source.GetOr(doc.docName)
  }

  /** The record built for a slot, with the id drawn for it. */
  function RecordOf(id: ChunkId, slot: Slot): ChunkRecord
  {
    ChunkRecord(id, slot.doc.docName, SourceOf(slot.doc), slot.index, slot.text)
  }

  /** The records of the slots, the p-th one with the p-th id drawn. */
  function Stamp(slots: seq<Slot>, freshId: nat -> ChunkId): seq<ChunkRecord>
  {
    seq(|slots|, p requires 0 <= p < |slots| => RecordOf(freshId(p), slots[p]))
  }

  /** `all_chunks` for the documents `docs`. */
  function IndexRecords(docs: seq<Document>, chunkText: Chunker, freshId: nat -> ChunkId): seq<ChunkRecord>
  {
    Stamp(Slots(docs, chunkText, ChunkSize, ChunkOverlap), freshId)
  }

  /** What `main` ends with: the early return, or the records and texts handed to the
      embedder and the indexes, with the number of files indexed. */
  datatype BuildOutcome =
    | NoDocuments
    | Built(allChunks: seq<ChunkRecord>, chunkTexts: seq<string>, filesIndexed: nat)

  /** `main`, lines 48-74 and 89: combine the documents, return early when there are none,
      build the records in document and chunk order, and collect their texts. */
  method IndexAllDocuments(pdfDocs: seq<Document>, htmlDocs: seq<Document>, chunkText: Chunker, freshId: nat -> ChunkId)
    returns (outcome: BuildOutcome)
    ensures outcome.NoDocuments? <==> pdfDocs + htmlDocs == []
    ensures outcome.Built? ==>
      && outcome.allChunks == IndexRecords(pdfDocs + htmlDocs, chunkText, freshId)
      && |outcome.chunkTexts| == |outcome.allChunks|
      && (forall i :: 0 <= i < |outcome.allChunks| ==> outcome.chunkTexts[i] == outcome.allChunks[i].text)
      && outcome.filesIndexed == |pdfDocs| + |htmlDocs|
  {
    var docs := pdfDocs + htmlDocs;
    if docs == [] {
      return NoDocuments;
    }
    var allChunks: seq<ChunkRecord> := [];
    for d := 0 to |docs|
      invariant allChunks == Stamp(Slots(docs[..d], chunkText, ChunkSize, ChunkOverlap), freshId)
    {
      var doc := docs[d];
      var chunks := chunkText(doc.text, ChunkSize, ChunkOverlap);
      var docSource := doc.source.GetOr(doc.docName);
      ghost var before := Slots(docs[..d], chunkText, ChunkSize, ChunkOverlap);
      ghost var mine := DocSlots(doc, chunks);
      for i := 0 to |chunks|
        invariant allChunks == Stamp(before + mine[..i], freshId)
      {
        assert before + mine[..i + 1] == (before + mine[..i]) + [mine[i]];
        allChunks := allChunks + [ChunkRecord(freshId(|allChunks|), doc.docName, docSource, i, chunks[i])];
      }
      assert docs[..d + 1][..d] == docs[..d];
      assert mine[..|chunks|] == mine;
    }
    assert docs[..|docs|] == docs;
    var chunkTexts := TextsOf(allChunks);
    return Built(allChunks, chunkTexts, |docs|);
  }

  /** Record number Offset(d) + c is chunk `c` of document `d`: that document's name, its
      source (the document's own `source`, else its name), `chunk_id` c, the chunk's text
      unchanged, and the id drawn at that position. */
  lemma RecordAt(docs: seq<Document>, d: nat, c: nat, chunkText: Chunker, freshId: nat -> ChunkId)
    requires d < |docs| && c < |chunkText(docs[d].text, ChunkSize, ChunkOverlap)|
    ensures var p := Offset(docs, d, chunkText, ChunkSize, ChunkOverlap) + c;
      var records := IndexRecords(docs, chunkText, freshId);
      && p < |records|
      && records[p].id == freshId(p)
      && records[p].docName == docs[d].docName
      && records[p].source == (if docs[d].source.Some? then docs[d].source.value else docs[d].docName)
      && records[p].chunkId == c
      && records[p].text == chunkText(docs[d].text, ChunkSize, ChunkOverlap)[c]
  {
    SlotAt(docs, d, c, chunkText, ChunkSize, ChunkOverlap);
  }

  /** There is one record per chunk of every document (the count `main` reports). */
  lemma RecordCount(docs: seq<Document>, chunkText: Chunker, freshId: nat -> ChunkId)
    ensures |IndexRecords(docs, chunkText, freshId)| == ChunkCount(docs, chunkText, ChunkSize, ChunkOverlap)
  {
    SlotsLength(docs, chunkText, ChunkSize, ChunkOverlap);
  }

  /** With an id supply that never repeats itself, no two records share an id. */
  lemma RecordIdsDistinct(docs: seq<Document>, chunkText: Chunker, freshId: nat -> ChunkId)
    requires forall m, n :: m != n ==> freshId(m) != freshId(n)
    ensures var records := IndexRecords(docs, chunkText, freshId);
      forall p, q :: 0 <= p < q < |records| ==> records[p].id != records[q].id
  {
  }

  /** The records of the PDF documents come first, then those of the HTML documents. */
  lemma PdfRecordsFirst(pdfDocs: seq<Document>, htmlDocs: seq<Document>, chunkText: Chunker, freshId: nat -> ChunkId)
    ensures var all := Slots(pdfDocs + htmlDocs, chunkText, ChunkSize, ChunkOverlap);
      var pdf := Slots(pdfDocs, chunkText, ChunkSize, ChunkOverlap);
      var html := Slots(htmlDocs, chunkText, ChunkSize, ChunkOverlap);
      && all == pdf + html
      && IndexRecords(pdfDocs + htmlDocs, chunkText, freshId)[..|pdf|] == Stamp(pdf, freshId)
  {
    SlotsAppend(pdfDocs, htmlDocs, chunkText, ChunkSize, ChunkOverlap);
  }
}
