/** src/rag_chain.py, `rag_query`: retrieve the chunks for a question, answer with a fixed
    sentence when there are none, and otherwise hand their texts to the language model. The
    Groq call is not part of this model: `generate(question, contextTexts)` is the answer
    `groq_answer` returns. Retrieval is `Retriever.Retrieve` on the FAISS row and the BM25
    hits for the question. */
module RagChain {
  import opened Wrappers
  import opened Records
  import opened Fusion
  import opened Retriever

  /** The answer `rag_query` gives when retrieval returns nothing. */
  const NoInformationAnswer: string := "I couldn't find any information about that in the university documents."

  /** `groq_answer` with its client and model fixed: question and context texts to answer. */
  type Generator = (string, seq<string>) -> string

  /** The pair `(answer_text, list_of_retrieved_chunks)`. */
  datatype RagAnswer = RagAnswer(answer: string, sources: seq<ChunkRecord>)

  /** `rag_query`. */
  function RagQuery(question: string, chunks: seq<ChunkRecord>, row: seq<int>, bm25: Option<seq<ChunkRecord>>,
                    topK: nat, generate: Generator): RagAnswer
    requires ValidRow(row) && ValidHits(chunks, bm25)
  {
    var relevant := Retrieve(chunks, row, bm25, topK);
    if relevant == [] then RagAnswer(NoInformationAnswer, [])
    else RagAnswer(generate(question, TextsOf(relevant)), relevant)
  }

  /** The sources are the retrieved chunks. When there are none, the answer is the fixed
      sentence, whatever the model would have said; otherwise it is the model's answer to the
      question with the sources' texts, in order, as its only context. */
  lemma RagAnswerCases(question: string, chunks: seq<ChunkRecord>, row: seq<int>, bm25: Option<seq<ChunkRecord>>,
                       topK: nat, generate: Generator, other: Generator)
    requires ValidRow(row) && ValidHits(chunks, bm25)
    ensures var r := RagQuery(question, chunks, row, bm25, topK, generate);
      && r.sources == Retrieve(chunks, row, bm25, topK)
      && (r.sources == [] ==> r.answer == NoInformationAnswer && r == RagQuery(question, chunks, row, bm25, topK, other))
      && (r.sources != [] ==> exists texts: seq<string> ::
            && |texts| == |r.sources|
            && (forall i :: 0 <= i < |texts| ==> texts[i] == r.sources[i].text)
            && r.answer == generate(question, texts))
  {
    var r := RagQuery(question, chunks, row, bm25, topK, generate);
    if r.sources != [] {
      var texts := TextsOf(r.sources);
      assert r.answer == generate(question, texts);
    }
  }

  /** At most `topK` sources, each a record of the indexed chunks; `topK` = 0 always gives
      the fixed answer. */
  lemma RagSourcesBounded(question: string, chunks: seq<ChunkRecord>, row: seq<int>, bm25: Option<seq<ChunkRecord>>,
                          topK: nat, generate: Generator)
    requires ValidRow(row) && ValidHits(chunks, bm25)
    ensures var r := RagQuery(question, chunks, row, bm25, topK, generate);
      && |r.sources| <= topK
      && (forall c :: c in r.sources ==> c in chunks)
      && (topK == 0 ==> r.answer == NoInformationAnswer)
  {
    RetrieveBounded(chunks, row, bm25, topK);
  }

  /** Without a BM25 index the sources are the chunks of the first `topK` usable FAISS row
      entries, in row order. */
  lemma RagFallbackSources(question: string, chunks: seq<ChunkRecord>, row: seq<int>, topK: nat, generate: Generator)
    requires ValidRow(row)
    ensures var cands := Candidates(chunks, row);
      var r := RagQuery(question, chunks, row, None, topK, generate);
      && |r.sources| == Min(topK, |cands|)
      && forall k :: 0 <= k < |r.sources| ==> r.sources[k] == chunks[row[cands[k].rank]]
  {
    FallbackIsFaissPrefix(chunks, row, topK);
  }

  /** With a BM25 index the sources come by descending fused score, and every voted chunk
      left out is behind every source. */
  lemma RagFusedSources(question: string, chunks: seq<ChunkRecord>, row: seq<int>, hits: seq<ChunkRecord>,
                        topK: nat, generate: Generator, id: ChunkId)
    requires ValidRow(row) && ValidHits(chunks, Some(hits))
    ensures var votes := FusedVotes(chunks, row, hits);
      var r := RagQuery(question, chunks, row, Some(hits), topK, generate);
      && (forall i, j :: 0 <= i < j < |r.sources| ==> FusedAhead(votes, r.sources[i].id, r.sources[j].id))
      && (id in Ids(votes) && id !in IdsOf(r.sources) ==>
            forall i :: 0 <= i < |r.sources| ==> FusedAhead(votes, r.sources[i].id, id))
  {
    FusedOrder(chunks, row, hits, topK);
    FusedTopK(chunks, row, hits, topK, id);
  }

  /** A FAISS row with no usable entry and no BM25 hit gives the fixed answer and no
      sources. */
  lemma NothingFoundAnswer(question: string, chunks: seq<ChunkRecord>, row: seq<int>, bm25: Option<seq<ChunkRecord>>,
                           topK: nat, generate: Generator)
    requires ValidRow(row) && ValidHits(chunks, bm25)
    requires forall p :: 0 <= p < |row| ==> row[p] == -1 || row[p] >= |chunks|
    requires bm25.None? || bm25.value == []
    ensures RagQuery(question, chunks, row, bm25, topK, generate) == RagAnswer(NoInformationAnswer, [])
  {
    NoCandidatesNoResult(chunks, row, bm25, topK);
  }
}
