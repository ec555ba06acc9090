/** The records the indexing and retrieval code passes around as Python dicts. */
module Records {
  import opened Wrappers

  /** A chunk identifier: the string form of a uuid4. */
  type ChunkId = string

  /** A loaded document, `{"doc_name": ..., "text": ..., "source": ...}`; the loaders always
      set `source`, but the index builder also accepts documents without it. */
  datatype Document = Document(docName: string, text: string, source: Option<string>)

  /** One entry of chunks.json as build_index.py writes it:
      `{"id", "doc_name", "source", "chunk_id", "text"}`. */
  datatype ChunkRecord = ChunkRecord(id: ChunkId, docName: string, source: string, chunkId: nat, text: string)

  /** `[c["text"] for c in records]`: the records' texts, in record order. */
  function TextsOf(records: seq<ChunkRecord>): seq<string>
  {
    seq(|records|, i requires 0 <= i < |records| => records[i].text)
  }
}
