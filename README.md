# IBA RAG chatbot: retrieval, index assembly and document loading in Dafny

This project models the deterministic core of a retrieval-augmented chatbot. The chatbot
answers questions about university documents (PDF and HTML files). The core has four parts.

- **Hybrid retrieval** (`retrieve_top_k`).
  - The raw FAISS row is filtered: `-1` entries and out-of-range indices are dropped, and every survivor keeps its position in the row as its rank.
  - Without a BM25 index, the result is the first `top_k` survivors.
  - With a BM25 index, the two lists are fused by Reciprocal Rank Fusion: every appearance at rank `r` adds `1/(60 + r)` to the chunk id's score in an insertion-ordered dict.
  - The ids are then sorted by descending score with a stable sort, and the first `top_k` are looked up by id.
- **Chunk-record assembly** (`main` of `build_index.py` and `build_and_save_index_from_folder` of `src/indexer.py`). The per-document chunk lists are flattened into one record list, in document order, then chunk order. Each record carries its chunk's position in its own document.
- **Document loading** (`src/html_loader.py`, `src/pdf_loader.py`). Text is normalised, file names are filtered by extension in any case, and blank documents are skipped.
- **Answering** (`rag_query`). A fixed sentence is returned when nothing is retrieved. Otherwise the language model gets the retrieved chunks' texts as context.

## Modules and layout

Each Python loop becomes a Dafny method. Its `ensures` ties the result to a function: the
method's specification. Lemmas then prove what the code promises about that function.

- `wrappers.dfy`: Option and Result.
- `records.dfy`: documents and chunk records.
- `text.dfy`: the Python string operations the loaders use, on `seq<char>`: `strip`, `splitlines`, `split`, `join`, `replace`, `lower`, `endswith`.
- `fusion.dfy`: RRF votes, the score dict, the stable descending sort.
- `retriever.dfy`: `retrieve_top_k`, as a specification function and as a method with the source's loops.
- `chunking.dfy`: the record layout shared by both builders.
- `build_index.dfy` and `indexer.dfy`: the two builders.
- `listing.dfy`: the folder scan shared by both loaders.
- `html_loader.dfy` and `pdf_loader.dfy`: the two loaders.
- `rag_chain.dfy`: `rag_query`.

Foreign computations become parameters of the model:
- FAISS search becomes the row it returns, padded with `-1`.
- `bm25.get_top_n` becomes its list of records, or `None` when no BM25 index is loaded.
- `chunk_text` becomes a function parameter.
- `uuid.uuid4()` becomes an id supply `freshId`, whose `n`-th draw is `freshId(n)`.
- `os.listdir` becomes a list of names, or `None` for a missing folder.
- Text extraction becomes a function from file name to extracted text.
- `groq_answer` becomes a function from question and context texts to an answer.

## Model

| member | source | states |
|---|---|---|
| Fusion.Contribution | src/retriever.py:39 | a vote is worth a positive amount, at most 1/60 |
| Fusion.ContributionDecreasing | src/retriever.py:39 | a vote at a better rank is worth strictly more than one at a worse rank |
| Fusion.AccumulateKeys | src/retriever.py:33-45 | the score dict's keys are exactly the voted ids, each once, and its key order lists exactly its keys |
| Fusion.AccumulateStep | src/retriever.py:38-39 | one more vote appends a new id to the key order (an existing id keeps its place) and adds the vote's worth to the id's score, counted from 0 |
| Fusion.AccumulateScores | src/retriever.py:32-45 | after both loops, every key's score equals the reference sum of 1/(60 + rank) over all of that id's votes |
| Fusion.AccumulateOrder | src/retriever.py:33-45 | dict insertion order is the order of first votes: key x precedes key y exactly when x's first vote precedes y's |
| Fusion.RrfScoreAppend | src/retriever.py:36-45 | the fused score over two vote lists is the sum of the two lists' scores |
| Fusion.RrfScoreAbsent | src/retriever.py:36-45 | an id without a vote scores 0 |
| Fusion.RrfScoreSingle | src/retriever.py:36-45 | an id voted for exactly once, at rank r, scores exactly 1/(60 + r) |
| Fusion.InsertRanked | src/retriever.py:48 | inserting a key into a ranked list yields a ranked list with exactly one more element, that key |
| Fusion.SortRanked | src/retriever.py:48 | sorting distinct keys yields the same keys, each once, in ranking order |
| Fusion.Rank | src/retriever.py:48 | the sorted keys are every dict key once, by descending score, equal scores in insertion order (the stable reverse sort) |
| Fusion.AheadTotal | src/retriever.py:48 | any two different keys are ordered one way or the other, so the ranking order is total |
| Fusion.AheadIsFusedAhead | src/retriever.py:33-48 | comparing two keys in the dict is the same as comparing their reference summed scores, then their first votes |
| Fusion.RankVotes | src/retriever.py:48 | the sorted ids are exactly the voted ids, with no repeats |
| Fusion.RankVotesOrder | src/retriever.py:48 | the sorted ids come by descending summed score, equal sums in first-vote order |
| Fusion.RankVotesTop | src/retriever.py:48-55 | a voted id left out of the first n sorted ids is behind every one of those n |
| Retriever.Candidates | src/retriever.py:12-15 | each candidate's rank is a position in the raw row holding a usable index, and its chunk is the chunk at that index |
| Retriever.CandidatesInRowOrder | src/retriever.py:13-15 | candidates are in row order: their ranks strictly increase |
| Retriever.CandidatesComplete | src/retriever.py:13-15 | every row position whose index is neither -1 nor out of range is a candidate's rank |
| Retriever.CandidatesNone | src/retriever.py:12-15 | a row without a usable index gives no candidate |
| Retriever.FilterFaissRow | src/retriever.py:12-15 | the loop builds exactly the candidate list |
| Retriever.AddVote | src/retriever.py:37-39 | one pass of a scoring loop takes the dict for the votes seen to the dict for those votes plus one |
| Retriever.AddVotes | src/retriever.py:36-45 | one scoring loop extends the dict for the prior votes to the dict for the prior votes followed by this list's votes |
| Retriever.ById | src/retriever.py:52 | every record's id is a key, and every key maps to a record of the chunks carrying that id |
| Retriever.ByIdLastWins | src/retriever.py:52 | for a repeated id, the dict holds the last record carrying it |
| Retriever.VotedIdsAreKnown | src/retriever.py:52-56 | every voted id is a key of the id map, so the final lookup never fails |
| Retriever.LookUpRanked | src/retriever.py:54-56 | the final loop collects the records stored under the first n ranked ids, in rank order |
| Retriever.RetrieveTopK | src/retriever.py:3-58 | the function's result is the retrieval specification, on both the fallback path and the fused path |
| Retriever.FallbackIsFaissPrefix | src/retriever.py:17-19 | without BM25 the result is the chunks of the first min(top_k, candidates) candidates, in FAISS order |
| Retriever.RetrieveBounded | src/retriever.py:19 | on both paths the result holds at most top_k records, each a record of the chunks |
| Retriever.FusedResult | src/retriever.py:48-56 | with BM25 the result holds min(top_k, distinct voted ids) records; record i carries the i-th sorted id, which was voted for, and no id appears twice |
| Retriever.FusedOrder | src/retriever.py:48-56 | with BM25 the records come by descending fused score, equal scores in first-vote order |
| Retriever.FusedTopK | src/retriever.py:48-56 | with BM25 every voted id left out of the result is behind every id returned |
| Retriever.FusedScoreSplit | src/retriever.py:32-45 | a fused score is the FAISS list's sum plus the BM25 list's sum |
| Retriever.FaissFirstOnTies | src/retriever.py:33-48 | an id from the FAISS list is voted for before an id only BM25 returned, so it wins a tie |
| Retriever.NoCandidatesNoResult | src/retriever.py:17-58 | no usable FAISS entry and no BM25 hit gives an empty result, not an error |
| Chunking.SlotsLength | build_index.py:55-68 | there is one slot per chunk of every document |
| Chunking.SlotsAppend | build_index.py:55-68 | the slots of two document lists in a row are the first list's slots, then the second's |
| Chunking.ChunkCountAppend | build_index.py:55-68 | the chunk count of two document lists in a row is the sum of their counts |
| Chunking.SlotAt | build_index.py:56-68 | chunk c of document d sits at the offset of d plus c, with its document, its index c and its text; the next document's chunks start right after d's |
| Chunking.SlotOrigin | build_index.py:56-68 | every slot falls inside some document's chunk range |
| BuildIndex.IndexAllDocuments | build_index.py:48-73 | no documents gives the early return; otherwise the records are the specified layout over PDF documents then HTML documents, the texts align with the records, and the file count is the number of documents |
| BuildIndex.RecordAt | build_index.py:56-68 | record number offset(d) + c carries a freshly drawn id, the document's name, its source (else its name), chunk_id c, and the chunk's text unchanged |
| BuildIndex.RecordCount | build_index.py:55-68 | the number of records is the sum of the per-document chunk counts |
| BuildIndex.RecordIdsDistinct | build_index.py:63 | with an id supply that never repeats, no two records share an id |
| BuildIndex.PdfRecordsFirst | build_index.py:48 | the records of the PDF documents come first, then those of the HTML documents |
| Indexer.AssembleRecords | src/indexer.py:29-41 | the nested loop builds exactly the specified records: document order, then chunk order |
| Indexer.PlainRecordAt | src/indexer.py:30-41 | record number offset(d) + c holds only the document's name, chunk_id c and the chunk's text |
| Indexer.BuildAndSaveIndexFromFolder | src/indexer.py:27-52 | as written, the records and texts are built, then the save call fails on a missing argument for every input |
| Indexer.BuildAndSaveIndexCorrected | src/indexer.py:27-52 | with the corrected call, the result is (total chunks, total documents); no guard stops an empty document list |
| Listing.ScanSound | src/html_loader.py:48-57 | every collected document is a listed file the loader keeps, with its loaded text, and is its own source |
| Listing.ScanComplete | src/pdf_loader.py:29-38 | every listed file the loader keeps is collected |
| Listing.ScanOrdered | src/html_loader.py:48-57 | the documents keep the listing order |
| HtmlLoader.Lines | src/html_loader.py:28 | no line holds a line-break character |
| HtmlLoader.KeepStrippedLines | src/html_loader.py:28 | the filter keeps at most as many lines as it is given |
| HtmlLoader.KeptLinesTidy | src/html_loader.py:28 | every kept line is non-empty and has no leading or trailing whitespace |
| HtmlLoader.KeptLinesHaveNoBreak | src/html_loader.py:28 | stripping adds no line break |
| HtmlLoader.KeepTidyLines | src/html_loader.py:28 | lines that are already non-blank and stripped pass the filter unchanged |
| HtmlLoader.CleanTextLines | src/html_loader.py:28-29 | the lines of the cleaned text are exactly the stripped non-blank input lines, in order, each non-empty and trimmed |
| HtmlLoader.CleanTextBlank | src/html_loader.py:28-29 | the cleaned text is blank exactly when no input line has a non-space character, and then it is "" |
| HtmlLoader.CleanTextIdempotent | src/html_loader.py:28-29 | cleaning cleaned text returns it unchanged |
| HtmlLoader.HtmlDocsNext | src/html_loader.py:48-57 | one loop pass appends the file's document exactly when the loader keeps the file |
| HtmlLoader.LoadAllHtmlFromFolder | src/html_loader.py:35-58 | a missing folder gives []; otherwise the result is the folder scan keeping HTML files with non-blank text |
| HtmlLoader.HtmlDocsSound | src/html_loader.py:49-57 | every document is a listed HTML file with its non-blank loaded text, and doc_name == source == filename |
| HtmlLoader.HtmlDocsComplete | src/html_loader.py:49-57 | every listed HTML file whose loaded text is not blank is returned |
| HtmlLoader.ExtractionErrorSkipped | src/html_loader.py:31-33 | a file whose extraction raised loads as "" and is skipped |
| HtmlLoader.ExtensionAccepted | src/html_loader.py:49 | every name ending in a suffix that lowers to .html or .htm, in any mix of cases, passes the filter |
| HtmlLoader.ExtensionTest | src/html_loader.py:49 | a name passes exactly when its last five characters lower to .html or its last four lower to .htm, so every other ending is rejected |
| PdfLoader.NormalisePage | src/pdf_loader.py:13-14 | a normalised page (a missing text counting as "") is trimmed and holds no "\n" |
| PdfLoader.KeptPages | src/pdf_loader.py:12-16 | at most one kept page per page |
| PdfLoader.KeptPagesTidy | src/pdf_loader.py:12-16 | every kept page is non-empty, trimmed and free of "\n" |
| PdfLoader.LoadPdfText | src/pdf_loader.py:11-18 | the page loop and join compute the specified text |
| PdfLoader.MissingPageDropped | src/pdf_loader.py:13-16 | a page without text counts as "" and is dropped |
| PdfLoader.PdfTextPages | src/pdf_loader.py:14-18 | splitting the text at "\n" gives back the kept pages; it holds one "\n" fewer than the kept pages, or none when no page is kept |
| PdfLoader.PdfTextBlank | src/pdf_loader.py:15-18 | the text is blank exactly when no page is kept, and then it is "" |
| PdfLoader.PdfDocsNext | src/pdf_loader.py:29-38 | one loop pass extends the result for the files seen so far by that file |
| PdfLoader.FailureStops | src/pdf_loader.py:29-32 | once a read has failed, the later files change nothing |
| PdfLoader.LoadAllPdfsFromFolder | src/pdf_loader.py:20-39 | a missing folder is an error; otherwise the result is the specified scan, which an unreadable PDF ends |
| PdfLoader.AddPdfStep | src/pdf_loader.py:30-38 | one pass fails exactly on an unreadable PDF file, and otherwise does what the folder scan does with that file |
| PdfLoader.AllReadableNext | src/pdf_loader.py:29-32 | every PDF file of a listing is readable exactly when every earlier one is and the last one is |
| PdfLoader.PdfDocsSucceeds | src/pdf_loader.py:29-32 | the load succeeds exactly when every listed PDF file can be read |
| PdfLoader.PdfDocsScan | src/pdf_loader.py:29-39 | a successful load is the folder scan keeping PDF files with non-blank text |
| PdfLoader.PdfDocsFailure | src/pdf_loader.py:29-32 | a failed load names the first listed PDF file that could not be read |
| PdfLoader.PdfDocsSoundComplete | src/pdf_loader.py:30-38 | after a successful load, every document is a listed PDF file with its non-blank text and doc_name == source == filename, and every PDF file with non-blank text is among them |
| PdfLoader.ExtensionAccepted | src/pdf_loader.py:30 | every name ending in a suffix that lowers to .pdf, in any mix of cases, passes the filter |
| PdfLoader.ExtensionTest | src/pdf_loader.py:30 | a name passes exactly when its last four characters lower to .pdf, so every other ending is rejected |
| PdfLoader.ExtensionRejected | src/pdf_loader.py:30 | only the end of the name counts: a name ending in .pdf.md does not pass |
| RagChain.RagAnswerCases | src/rag_chain.py:14-26 | the sources are the retrieved chunks, in order; no chunks gives the fixed sentence, whatever the generator; otherwise the answer is the generator's answer with the chunks' texts, in order |
| RagChain.RagSourcesBounded | src/rag_chain.py:14-17 | at most top_k sources, each an indexed chunk; top_k = 0 gives the fixed sentence, given that the FAISS search succeeds |
| RagChain.RagFallbackSources | src/rag_chain.py:14 | without a BM25 index the sources are the first top_k usable FAISS chunks, in row order |
| RagChain.RagFusedSources | src/rag_chain.py:14 | with a BM25 index the sources come by descending fused score, and every voted chunk left out is behind all of them |
| RagChain.NothingFoundAnswer | src/rag_chain.py:14-17 | no usable FAISS entry and no BM25 hit gives the fixed sentence with no sources |
| Text.Strip | src/pdf_loader.py:14 | the stripped string has no leading or trailing whitespace, and an already trimmed string is left alone |
| Text.StripBlank | src/html_loader.py:28 | stripping gives "" exactly when the string is all whitespace |
| Text.StripAvoids | src/pdf_loader.py:14 | stripping adds no character: a string without a separator stays without one |
| Text.SplitJoin | src/html_loader.py:28-29 | joining separator-free pieces with a separator, then splitting there, gives the pieces back |
| Text.LowerSuffix | src/html_loader.py:49 | lowering a name, then taking its end, is taking its end, then lowering it |
| Text.JoinCount | src/pdf_loader.py:18 | joining n separator-free pieces puts exactly n - 1 separators in |

## Left out

- Foreign computations are not modelled: FAISS search, query embedding, BM25 scoring and its lowercase tokenisation, the sentence embedder, the Groq client, BeautifulSoup extraction and pypdf page extraction. They are inputs or function parameters, as listed above.
- The text splitter `chunk_text` is not modelled: it is a function parameter, so nothing is said about chunk sizes or overlaps.
- The foreign calls are assumed to succeed: query embedding and FAISS search (src/retriever.py:9-10), text embedding and FAISS index construction (build_index.py:72-78, src/indexer.py:44-48), and BM25 index construction. The model goes straight from the record loop to the save call. So the results stated for an empty document list (Indexer.BuildAndSaveIndexCorrected) and for `top_k` = 0 (RagChain.RagSourcesBounded, with `index.search(q_emb, 0)`) hold only if those calls succeed on such inputs. Whether `build_faiss_index` accepts the embedder's output for zero texts (src/vector_store.py:17 reads its second dimension) is not modelled.
- I/O is not modelled: file reading, pickle and JSON saving, console prints, `app.py` and `chat.py`.
- src/vector_store.py is not part of this model beyond the number of parameters of `save_vector_db`. src/chunker.py, src/embedder.py and src/groq_llm.py are not part of this model either.
- Fusion.Contribution: scores are exact reals. Float rounding, which could merge or split ties, is not modelled.
- Retriever.RetrieveTopK: the row and the BM25 list may have any length. The `top_k * 2` fetch size is not enforced.
- Retriever.RetrieveTopK: the row must hold no index below -1 (`ValidRow`), since FAISS never returns one. Python would wrap such an index from the end.
- Retriever.RetrieveTopK: `chunk_id_to_rank` (src/retriever.py:28) is not modelled. It is built and never read.
- Retriever.RetrieveTopK: BM25 hits must be records of the chunk list (`ValidHits`). `get_top_n` returns elements of the corpus it is given.
- BuildIndex.IndexAllDocuments: `uuid4` randomness is the id supply `freshId`. Distinct ids are a hypothesis of `RecordIdsDistinct`, not a guarantee.
- The order in which `os.listdir` returns names is not modelled: any order is an input.
- HtmlLoader.Lines: `str.splitlines` is modelled as a cut at every line-break character. This also yields empty pieces after a trailing break and inside "\r\n". The blank-line filter drops them, so the cleaned text is the same.
- HtmlLoader.ExtensionAccepted: `str.lower` is modelled on ASCII letters only, here and in HtmlLoader.ExtensionTest, PdfLoader.ExtensionAccepted and PdfLoader.ExtensionTest. The suffixes compared are ASCII. No other character lowers to one of their letters, and the one character that lowers to two (U+0130) ends in a combining dot, so the tests agree with Python's.
- PdfLoader.LoadAllPdfsFromFolder: a reader failure is one `None` per file. Which exception pypdf raises is not modelled.
- Three behaviours a reader might expect are not in the code, and the model does not add them:
  - Ties between equal fused scores are broken by dict insertion order (src/retriever.py:33-48): FAISS candidates first, then ids new in the BM25 list. Position in the chunk store plays no part.
  - `src/indexer.py` has no guard against an empty document list (src/indexer.py:27-50). Only `build_index.py` returns early (build_index.py:50-52).
  - The index is not saved atomically: `save_vector_db` writes its files one after another (src/vector_store.py:36-46), and the save itself is not part of this model.

## Findings

| source | as written | input that shows it | evidently intended | confidence | as-written member | corrected member |
|---|---|---|---|---|---|---|
| src/indexer.py:50 | `save_vector_db` takes six positional parameters (src/vector_store.py:30), but the call passes five and omits the BM25 index. Python raises a TypeError, so the `(total_chunks, total_docs)` pair at line 52 is never returned | any folder for which loading, embedding and FAISS index construction succeed | pass a BM25 index second, as build_index.py:86 does, and return the pair | not executed | Indexer.BuildAndSaveIndexFromFolder | Indexer.BuildAndSaveIndexCorrected |
