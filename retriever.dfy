/** src/retriever.py, `retrieve_top_k`. Embedding the query, the FAISS search and BM25
    scoring are foreign: the model takes the row FAISS returned (`faiss_indices[0]`, row
    indices into `chunks`, padded with -1) and the list `bm25.get_top_n(...)` returned, or
    None when no BM25 index was loaded. */
module Retriever {
  import opened Wrappers
  import opened Records
  import opened Fusion

  /** An entry of `faiss_results`: a chunk and its position in the raw FAISS row. */
  datatype Candidate = Candidate(chunk: ChunkRecord, rank: nat)

  /** FAISS fills missing neighbours with -1; it returns no other negative index. */
  predicate ValidRow(row: seq<int>)
  {
    forall p :: 0 <= p < |row| ==> row[p] >= -1
  }

  /** get_top_n returns records of the corpus it is given, which is `chunks`. */
  predicate ValidHits(chunks: seq<ChunkRecord>, bm25: Option<seq<ChunkRecord>>)
  {
    bm25.Some? ==> forall j :: 0 <= j < |bm25.value| ==> bm25.value[j] in chunks
  }

  function Min(a: nat, b: nat): nat
  {
    if a < b then a else b
  }

  /** `faiss_results`: the entries of the row that are not -1 and index into `chunks`, each
      paired with the chunk it names and with its position in the row. */
  function Candidates(chunks: seq<ChunkRecord>, row: seq<int>): (cands: seq<Candidate>)
    requires ValidRow(row)
    ensures |cands| <= |row|
    ensures forall k :: 0 <= k < |cands| ==>
      cands[k].rank < |row| && 0 <= row[cands[k].rank] < |chunks| && cands[k].chunk == chunks[row[cands[k].rank]]
  {
    if row == [] then []
    else
      var prev := Candidates(chunks, row[..|row| - 1]);
      var idx := row[|row| - 1];
      if idx != -1 && idx < |chunks| then prev + [Candidate(chunks[idx], |row| - 1)] else prev
  }

  /** The FAISS list's votes for fusion: each candidate's id at its row position. */
  function FaissVotes(cands: seq<Candidate>): seq<Vote>
  {
    seq(|cands|, k requires 0 <= k < |cands| => Vote(cands[k].chunk.id, cands[k].rank))
  }

  /** The BM25 list's votes for fusion: each hit's id at its position in the list. */
  function Bm25Votes(hits: seq<ChunkRecord>): seq<Vote>
  {
    seq(|hits|, j requires 0 <= j < |hits| => Vote(hits[j].id, j))
  }

  /** `{c["id"]: c for c in chunks}`: every record's id is a key and every key maps to a
      record of `chunks` carrying that id (for a repeated id, the last such record). */
  function ById(chunks: seq<ChunkRecord>): (m: map<ChunkId, ChunkRecord>)
    ensures forall c :: c in chunks ==> c.id in m
    ensures forall id :: id in m ==> m[id] in chunks && m[id].id == id
  {
    if chunks == [] then map[]
    else
      var prefix := chunks[..|chunks| - 1];
      var last := chunks[|chunks| - 1];
      assert chunks == prefix + [last];
      ById(prefix)[last.id := last]
  }

  /** For a repeated id the dict keeps the last record carrying it. */
  lemma {:induction false} ByIdLastWins(chunks: seq<ChunkRecord>, p: nat)
    requires p < |chunks|
    requires forall q :: p < q < |chunks| ==> chunks[q].id != chunks[p].id
    ensures ById(chunks)[chunks[p].id] == chunks[p]
  {
    var prefix := chunks[..|chunks| - 1];
    if p < |chunks| - 1 {
      assert prefix[p] == chunks[p];
      assert forall q :: p < q < |prefix| ==> prefix[q] == chunks[q];
      ByIdLastWins(prefix, p);
    }
  }

  /** The ids of returned records (Fusion.Ids is the same projection on votes). */
  function IdsOf(records: seq<ChunkRecord>): seq<ChunkId>
  {
    seq(|records|, i requires 0 <= i < |records| => records[i].id)
  }

  /** The value of `retrieve_top_k`. */
  function Retrieve(chunks: seq<ChunkRecord>, row: seq<int>, bm25: Option<seq<ChunkRecord>>, topK: nat): seq<ChunkRecord>
    requires ValidRow(row) && ValidHits(chunks, bm25)
  {
    var cands := Candidates(chunks, row);
    match bm25
    case None =>
      var n := Min(topK, |cands|);
      seq(n, k requires 0 <= k < n => cands[k].chunk)
    case Some(hits) =>
      var ranked := RankVotes(FaissVotes(cands) + Bm25Votes(hits));
      VotedIdsAreKnown(chunks, row, hits);
      LookUp(ById(chunks), ranked, Min(topK, |ranked|))
  }

  /** The records stored under the first `n` of `ids`. */
  function LookUp(byId: map<ChunkId, ChunkRecord>, ids: seq<ChunkId>, n: nat): seq<ChunkRecord>
    requires n <= |ids| && forall id :: id in ids ==> id in byId
  {
    seq(n, i requires 0 <= i < n => byId[ids[i]])
  }

  /** Every id that receives a vote is the id of a record in `chunks`. */
  lemma VotedIdsAreKnown(chunks: seq<ChunkRecord>, row: seq<int>, hits: seq<ChunkRecord>)
    requires ValidRow(row) && ValidHits(chunks, Some(hits))
    ensures forall id :: id in Ids(FaissVotes(Candidates(chunks, row)) + Bm25Votes(hits)) ==> id in ById(chunks)
  {
    var cands := Candidates(chunks, row);
    var votes := FaissVotes(cands) + Bm25Votes(hits);
    forall id | id in Ids(votes)
      ensures id in ById(chunks)
    {
      var p :| 0 <= p < |votes| && Ids(votes)[p] == id;
      if p < |cands| {
        assert votes[p] == Vote(cands[p].chunk.id, cands[p].rank);
        assert cands[p].chunk in chunks;
      } else {
        assert votes[p] == Vote(hits[p - |cands|].id, p - |cands|);
      }
    }
  }

  /** The loop building `faiss_results` (src/retriever.py:12-15). */
  method FilterFaissRow(chunks: seq<ChunkRecord>, row: seq<int>) returns (faissResults: seq<Candidate>)
    requires ValidRow(row)
    ensures faissResults == Candidates(chunks, row)
  {
    faissResults := [];
    for rank := 0 to |row|
      invariant faissResults == Candidates(chunks, row[..rank])
    {
      var idx := row[rank];
      assert row[..rank + 1][..rank] == row[..rank];
      if idx != -1 && idx < |chunks| {
        faissResults := faissResults + [Candidate(chunks[idx], rank)];
      }
    }
    assert row[..|row|] == row;
  }

  /** The body of the scoring loops of src/retriever.py:36-45: a new key of `scores` is
      appended to `order` and seeded with 0, then the vote's 1/(k + rank) is added. */
  method AddVote(order0: seq<ChunkId>, scores0: map<ChunkId, real>, ghost done: seq<Vote>, v: Vote)
    returns (order: seq<ChunkId>, scores: map<ChunkId, real>)
    requires order0 == Accumulate(done).order && scores0 == Accumulate(done).score
    ensures order == Accumulate(done + [v]).order && scores == Accumulate(done + [v]).score
  {
    AccumulateStep(done, v);
    order, scores := order0, scores0;
    if v.id !in scores {
      order := order + [v.id];
      scores := scores[v.id := 0.0];
    }
    scores := scores[v.id := scores[v.id] + Contribution(v.rank)];
  }

  /** One of the two scoring loops of src/retriever.py:36-45, over the votes of one list. */
  method AddVotes(order0: seq<ChunkId>, scores0: map<ChunkId, real>, ghost prior: seq<Vote>, votes: seq<Vote>)
    returns (order: seq<ChunkId>, scores: map<ChunkId, real>)
    requires order0 == Accumulate(prior).order && scores0 == Accumulate(prior).score
    ensures order == Accumulate(prior + votes).order && scores == Accumulate(prior + votes).score
  {
    order, scores := order0, scores0;
    ghost var done := prior;
    for k := 0 to |votes|
      invariant done == prior + votes[..k]
      invariant order == Accumulate(done).order && scores == Accumulate(done).score
    {
      order, scores := AddVote(order, scores, done, votes[k]);
      done := done + [votes[k]];
      assert votes[..k + 1] == votes[..k] + [votes[k]];
    }
    assert votes[..|votes|] == votes;
  }

  /** The loop of src/retriever.py:54-58: the records stored under the first `n` ranked ids. */
  method LookUpRanked(byId: map<ChunkId, ChunkRecord>, ids: seq<ChunkId>, n: nat) returns (results: seq<ChunkRecord>)
    requires n <= |ids| && forall id :: id in ids ==> id in byId
    ensures results == LookUp(byId, ids, n)
  {
    results := [];
    for i := 0 to n
      invariant results == LookUp(byId, ids, i)
    {
      results := results + [byId[ids[i]]];
    }
  }

  /** `retrieve_top_k`: without a BM25 index, the first `topK` FAISS candidates; otherwise
      the fused scores, their keys sorted by score and the first `topK` looked up by id. */
  method RetrieveTopK(chunks: seq<ChunkRecord>, row: seq<int>, topK: nat, bm25: Option<seq<ChunkRecord>>)
    returns (results: seq<ChunkRecord>)
    requires ValidRow(row) && ValidHits(chunks, bm25)
    ensures results == Retrieve(chunks, row, bm25, topK)
  {
    var faissResults := FilterFaissRow(chunks, row);
    if bm25.None? {
      var n := Min(topK, |faissResults|);
      return seq(n, k requires 0 <= k < n => faissResults[k].chunk);
    }
    var bm25Results := bm25.value;
    var faissVotes := FaissVotes(faissResults);
    var order, scores := AddVotes([], map[], [], faissVotes);
    assert [] + faissVotes == faissVotes;
    order, scores := AddVotes(order, scores, faissVotes, Bm25Votes(bm25Results));
    assert Tally(order, scores) == Accumulate(faissVotes + Bm25Votes(bm25Results));
    AccumulateKeys(faissVotes + Bm25Votes(bm25Results));

    var sortedChunkIds := Rank(Tally(order, scores));
    assert sortedChunkIds == RankVotes(faissVotes + Bm25Votes(bm25Results));
    var allChunksMap := ById(chunks);
    VotedIdsAreKnown(chunks, row, bm25Results);
    assert forall id :: id in sortedChunkIds ==> id in allChunksMap;
    results := LookUpRanked(allChunksMap, sortedChunkIds, Min(topK, |sortedChunkIds|));
  }

  /** All the votes of the fusion: the FAISS candidates' first, then the BM25 hits'. */
  function FusedVotes(chunks: seq<ChunkRecord>, row: seq<int>, hits: seq<ChunkRecord>): seq<Vote>
    requires ValidRow(row)
  {
    FaissVotes(Candidates(chunks, row)) + Bm25Votes(hits)
  }

  /** The candidates keep row order: their row positions strictly increase. */
  lemma {:induction false} CandidatesInRowOrder(chunks: seq<ChunkRecord>, row: seq<int>)
    requires ValidRow(row)
    ensures forall k, l :: 0 <= k < l < |Candidates(chunks, row)| ==>
      Candidates(chunks, row)[k].rank < Candidates(chunks, row)[l].rank
  {
    if row != [] {
      var prefix := row[..|row| - 1];
      CandidatesInRowOrder(chunks, prefix);
      var prev := Candidates(chunks, prefix);
      var cands := Candidates(chunks, row);
      forall k, l | 0 <= k < l < |cands|
        ensures cands[k].rank < cands[l].rank
      {
        assert cands[k] == prev[k];
        if l < |prev| {
          assert cands[l] == prev[l];
        }
      }
    }
  }

  /** The row positions of the candidates. */
  function RanksOf(cands: seq<Candidate>): seq<nat>
  {
    seq(|cands|, k requires 0 <= k < |cands| => cands[k].rank)
  }

  /** Every usable entry of the row is a candidate. */
  lemma {:induction false} CandidatesComplete(chunks: seq<ChunkRecord>, row: seq<int>)
    requires ValidRow(row)
    ensures forall p :: 0 <= p < |row| && row[p] != -1 && row[p] < |chunks| ==> p in RanksOf(Candidates(chunks, row))
  {
    if row != [] {
      var prefix := row[..|row| - 1];
      CandidatesComplete(chunks, prefix);
      var prev := Candidates(chunks, prefix);
      var cands := Candidates(chunks, row);
      var idx := row[|row| - 1];
      if idx != -1 && idx < |chunks| {
        assert RanksOf(cands) == RanksOf(prev) + [|row| - 1];
      } else {
        assert cands == prev;
      }
      assert forall p :: 0 <= p < |prefix| ==> prefix[p] == row[p];
    }
  }

  /** Without a BM25 index the answer is the first `topK` FAISS candidates' chunks, in FAISS
      order: the chunks the usable row entries name (CandidatesInRowOrder, CandidatesComplete). */
  lemma FallbackIsFaissPrefix(chunks: seq<ChunkRecord>, row: seq<int>, topK: nat)
    requires ValidRow(row)
    ensures var cands := Candidates(chunks, row);
      var r := Retrieve(chunks, row, None, topK);
      && |r| == Min(topK, |cands|)
      && forall k :: 0 <= k < |r| ==> r[k] == chunks[row[cands[k].rank]]
  {
  }

  /** Never more than `topK` records, and every one of them a record of `chunks`. */
  lemma RetrieveBounded(chunks: seq<ChunkRecord>, row: seq<int>, bm25: Option<seq<ChunkRecord>>, topK: nat)
    requires ValidRow(row) && ValidHits(chunks, bm25)
    ensures |Retrieve(chunks, row, bm25, topK)| <= topK
    ensures forall c :: c in Retrieve(chunks, row, bm25, topK) ==> c in chunks
  {
    var r := Retrieve(chunks, row, bm25, topK);
    if bm25.Some? {
      VotedIdsAreKnown(chunks, row, bm25.value);
    }
    forall c | c in r
      ensures c in chunks
    {
      var i :| 0 <= i < |r| && r[i] == c;
    }
  }

  /** With BM25 the answer holds min(topK, number of distinct voted ids) records, each
      carrying a voted id, no id twice. */
  lemma FusedResult(chunks: seq<ChunkRecord>, row: seq<int>, hits: seq<ChunkRecord>, topK: nat)
    requires ValidRow(row) && ValidHits(chunks, Some(hits))
    ensures var votes := FusedVotes(chunks, row, hits);
      var r := Retrieve(chunks, row, Some(hits), topK);
      && |r| == Min(topK, |RankVotes(votes)|)
      && (forall i :: 0 <= i < |r| ==> r[i].id == RankVotes(votes)[i] && r[i].id in Ids(votes))
      && Distinct(IdsOf(r))
  {
    var votes := FusedVotes(chunks, row, hits);
    var ranked := RankVotes(votes);
    var r := Retrieve(chunks, row, Some(hits), topK);
    VotedIdsAreKnown(chunks, row, hits);
    forall i | 0 <= i < |r|
      ensures r[i].id == ranked[i] && r[i].id in Ids(votes)
    {
      assert ranked[i] in ranked;
    }
  }

  /** With BM25 the records come by descending fused score, equal scores in the order in
      which their ids were first voted for. */
  lemma FusedOrder(chunks: seq<ChunkRecord>, row: seq<int>, hits: seq<ChunkRecord>, topK: nat)
    requires ValidRow(row) && ValidHits(chunks, Some(hits))
    ensures var votes := FusedVotes(chunks, row, hits);
      var r := Retrieve(chunks, row, Some(hits), topK);
      forall i, j :: 0 <= i < j < |r| ==> FusedAhead(votes, r[i].id, r[j].id)
  {
    FusedResult(chunks, row, hits, topK);
    RankVotesOrder(FusedVotes(chunks, row, hits));
  }

  /** With BM25 the answer is a top-k: every voted id left out is behind every one returned. */
  lemma FusedTopK(chunks: seq<ChunkRecord>, row: seq<int>, hits: seq<ChunkRecord>, topK: nat, id: ChunkId)
    requires ValidRow(row) && ValidHits(chunks, Some(hits))
    ensures var votes := FusedVotes(chunks, row, hits);
      var r := Retrieve(chunks, row, Some(hits), topK);
      id in Ids(votes) && id !in IdsOf(r) ==> forall i :: 0 <= i < |r| ==> FusedAhead(votes, r[i].id, id)
  {
    var votes := FusedVotes(chunks, row, hits);
    var r := Retrieve(chunks, row, Some(hits), topK);
    if id in Ids(votes) && id !in IdsOf(r) {
      FusedResult(chunks, row, hits, topK);
      var ranked := RankVotes(votes);
      assert IdsOf(r) == ranked[..|r|];
      RankVotesTop(votes, |r|, id);
    }
  }

  /** A fused score is the FAISS list's sum plus the BM25 list's sum. */
  lemma FusedScoreSplit(chunks: seq<ChunkRecord>, row: seq<int>, hits: seq<ChunkRecord>, id: ChunkId)
    requires ValidRow(row)
    ensures RrfScore(FusedVotes(chunks, row, hits), id)
      == RrfScore(FaissVotes(Candidates(chunks, row)), id) + RrfScore(Bm25Votes(hits), id)
  {
    RrfScoreAppend(FaissVotes(Candidates(chunks, row)), Bm25Votes(hits), id);
  }

  /** On equal fused scores, an id FAISS returned goes before one only BM25 returned. */
  lemma FaissFirstOnTies(chunks: seq<ChunkRecord>, row: seq<int>, hits: seq<ChunkRecord>, x: ChunkId, y: ChunkId)
    requires ValidRow(row)
    requires x in Ids(FaissVotes(Candidates(chunks, row)))
    requires y !in Ids(FaissVotes(Candidates(chunks, row))) && y in Ids(Bm25Votes(hits))
    ensures var votes := FusedVotes(chunks, row, hits);
      IndexOf(Ids(votes), x) < IndexOf(Ids(votes), y)
  {
    var a := Ids(FaissVotes(Candidates(chunks, row)));
    var ids := Ids(FusedVotes(chunks, row, hits));
    assert ids == a + Ids(Bm25Votes(hits));
    var ix := IndexOf(a, x);
    assert ids[ix] == x;
    var iy := IndexOf(ids, y);
  }

  /** A row without a usable entry has no candidates. */
  lemma {:induction false} CandidatesNone(chunks: seq<ChunkRecord>, row: seq<int>)
    requires ValidRow(row)
    requires forall p :: 0 <= p < |row| ==> row[p] == -1 || row[p] >= |chunks|
    ensures Candidates(chunks, row) == []
  {
    if row != [] {
      CandidatesNone(chunks, row[..|row| - 1]);
    }
  }

  /** Nothing to fuse and nothing to fall back on: the answer is empty. */
  lemma NoCandidatesNoResult(chunks: seq<ChunkRecord>, row: seq<int>, bm25: Option<seq<ChunkRecord>>, topK: nat)
    requires ValidRow(row) && ValidHits(chunks, bm25)
    requires forall p :: 0 <= p < |row| ==> row[p] == -1 || row[p] >= |chunks|
    requires bm25.None? || bm25.value == []
    ensures Retrieve(chunks, row, bm25, topK) == []
  {
    CandidatesNone(chunks, row);
    if bm25.Some? {
      var votes := FusedVotes(chunks, row, bm25.value);
      assert votes == [];
      var ranked := RankVotes(votes);
    }
  }
}
