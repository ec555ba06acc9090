/** src/indexer.py, `build_and_save_index_from_folder`: the older single-folder builder. It
    turns every chunk of every loaded PDF document into a record holding only the document
    name, the chunk's position and its text, collects the texts for the embedder, and
    calls `save_vector_db`. The call passes five positional arguments to a function that
    takes six (src/vector_store.py:30), so Python raises a TypeError there and the
    `(total_chunks, total_docs)` pair is never returned. Loading, embedding and the FAISS
    index are not part of this model: the loaded documents and `chunk_text` are parameters. */
module Indexer {
  import opened Wrappers
  import opened Records
  import opened Chunking

  /** A record of this builder: no id and no source. */
  datatype PlainChunkRecord = PlainChunkRecord(docName: string, chunkId: nat, text: string)

  function PlainRecordOf(slot: Slot): PlainChunkRecord
  {
    PlainChunkRecord(slot.doc.docName, slot.index, slot.text)
  }

  /** `all_chunks` for the documents `docs`. */
  function PlainRecords(docs: seq<Document>, chunkText: Chunker, chunkSize: int, chunkOverlap: int): seq<PlainChunkRecord>
  {
    var slots := Slots(docs, chunkText, chunkSize, chunkOverlap);
    seq(|slots|, p requires 0 <= p < |slots| => PlainRecordOf(slots[p]))
  }

  /** `[c["text"] for c in all_chunks]` on this builder's records, which have a type of
      their own (no id, no source); Records.TextsOf is the same comprehension on full records. */
  function PlainTexts(records: seq<PlainChunkRecord>): seq<string>
  {
    seq(|records|, i requires 0 <= i < |records| => records[i].text)
  }

  /** `save_vector_db(index, bm25, chunks, vector_db_dir, faiss_path, chunks_path)` takes six
      positional parameters and has no defaults. */
  const SaveVectorDbParameters: nat := 6

  /** The positional arguments src/indexer.py:50 passes: index, all_chunks, vector_db_dir,
      faiss_index_path, chunks_path. */
  const SaveVectorDbArgumentsAsWritten: nat := 5

  /** The positional arguments of the corrected call, with the BM25 index second. */
  const SaveVectorDbArgumentsCorrected: nat := 6

  /** The TypeError Python raises for a call with the wrong number of positional arguments. */
  datatype CallError = MissingPositionalArguments(missing: nat) | TooManyPositionalArguments(given: nat)

  /** Calling `save_vector_db` with `given` positional arguments: the call fails before the
      body runs unless the count matches the parameter list. */
  function CallSaveVectorDb(given: nat): Result<(), CallError>
  {
    if given < SaveVectorDbParameters then Failure(MissingPositionalArguments(SaveVectorDbParameters - given))
    else if given > SaveVectorDbParameters then Failure(TooManyPositionalArguments(given))
    else Success(())
  }

  /** The nested loop of src/indexer.py:29-41. */
  method AssembleRecords(docs: seq<Document>, chunkText: Chunker, chunkSize: int, chunkOverlap: int)
    returns (allChunks: seq<PlainChunkRecord>)
    ensures allChunks == PlainRecords(docs, chunkText, chunkSize, chunkOverlap)
  {
    allChunks := [];
    for d := 0 to |docs|
      invariant allChunks == PlainRecords(docs[..d], chunkText, chunkSize, chunkOverlap)
    {
      var doc := docs[d];
      var chunks := chunkText(doc.text, chunkSize, chunkOverlap);
      ghost var before := Slots(docs[..d], chunkText, chunkSize, chunkOverlap);
      ghost var mine := DocSlots(doc, chunks);
      assert docs[..d + 1][..d] == docs[..d];
      assert Slots(docs[..d + 1], chunkText, chunkSize, chunkOverlap) == before + mine;
      for i := 0 to |chunks|
        invariant |allChunks| == |before| + i
        invariant forall p :: 0 <= p < |allChunks| ==> allChunks[p] == PlainRecordOf((before + mine)[p])
      {
        allChunks := allChunks + [PlainChunkRecord(doc.docName, i, chunks[i])];
      }
    }
    assert docs[..|docs|] == docs;
  }

  /** `build_and_save_index_from_folder` as written: the records and texts are built, then the
      five-argument save call fails, so the function ends in that error for every input. */
  method BuildAndSaveIndexFromFolder(docs: seq<Document>, chunkText: Chunker, chunkSize: int, chunkOverlap: int)
    returns (allChunks: seq<PlainChunkRecord>, chunkTexts: seq<string>, result: Result<(int, int), CallError>)
    ensures allChunks == PlainRecords(docs, chunkText, chunkSize, chunkOverlap)
    ensures |chunkTexts| == |allChunks| && forall i :: 0 <= i < |allChunks| ==> chunkTexts[i] == allChunks[i].text
    ensures result == Failure(MissingPositionalArguments(1))
  {
    allChunks := AssembleRecords(docs, chunkText, chunkSize, chunkOverlap);
    chunkTexts := PlainTexts(allChunks);
    var saved := CallSaveVectorDb(SaveVectorDbArgumentsAsWritten);
    result := match saved
      case Failure(e) => Failure(e)
      case Success(_) => Success((|allChunks|, |docs|));
  }

  /** The builder with the BM25 index passed as the second argument, as the parameter list
      asks: the save call goes through and the pair (total chunks, total documents) is
      returned, also for an empty folder, which has no guard here. */
  method BuildAndSaveIndexCorrected(docs: seq<Document>, chunkText: Chunker, chunkSize: int, chunkOverlap: int)
    returns (allChunks: seq<PlainChunkRecord>, chunkTexts: seq<string>, result: Result<(int, int), CallError>)
    ensures allChunks == PlainRecords(docs, chunkText, chunkSize, chunkOverlap)
    ensures |chunkTexts| == |allChunks| && forall i :: 0 <= i < |allChunks| ==> chunkTexts[i] == allChunks[i].text
    ensures result == Success((ChunkCount(docs, chunkText, chunkSize, chunkOverlap), |docs|))
  {
    allChunks := AssembleRecords(docs, chunkText, chunkSize, chunkOverlap);
    chunkTexts := PlainTexts(allChunks);
    var saved := CallSaveVectorDb(SaveVectorDbArgumentsCorrected);
    SlotsLength(docs, chunkText, chunkSize, chunkOverlap);
    result := match saved
      case Failure(e) => Failure(e)
      case Success(_) => Success((|allChunks|, |docs|));
  }

  /** Record number Offset(d) + c is chunk `c` of document `d`: the document's name,
      `chunk_id` c and the chunk's text. */
  lemma PlainRecordAt(docs: seq<Document>, d: nat, c: nat, chunkText: Chunker, chunkSize: int, chunkOverlap: int)
    requires d < |docs| && c < |chunkText(docs[d].text, chunkSize, chunkOverlap)|
    ensures var p := Offset(docs, d, chunkText, chunkSize, chunkOverlap) + c;
      var records := PlainRecords(docs, chunkText, chunkSize, chunkOverlap);
      p < |records| && records[p] == PlainChunkRecord(docs[d].docName, c, chunkText(docs[d].text, chunkSize, chunkOverlap)[c])
  {
    SlotAt(docs, d, c, chunkText, chunkSize, chunkOverlap);
  }
}
