/** The layout both index builders (build_index.py and src/indexer.py) give their records:
    the per-document chunk lists flattened, documents in order and chunks in order within
    each document, every chunk carrying its 0-based position in its own document. The
    splitter itself (`chunk_text`, a wrapper over a library text splitter) is not part of
    this model: it is a function parameter. */
module Chunking {
  import opened Records

  /** `chunk_text(text, chunk_size, overlap)`. */
  type Chunker = (string, int, int) -> seq<string>

  /** One chunk before it becomes a record: its document, its position among that
      document's chunks, and its text. */
  datatype Slot = Slot(doc: Document, index: nat, text: string)

  function DocSlots(doc: Document, chunks: seq<string>): seq<Slot>
  {
    seq(|chunks|, i requires 0 <= i < |chunks| => Slot(doc, i, chunks[i]))
  }

  /** Every chunk of every document, in document order, then chunk order. */
  function Slots(docs: seq<Document>, chunkText: Chunker, size: int, overlap: int): seq<Slot>
  {
    if docs == [] then []
    else
      var last := docs[|docs| - 1];
      Slots(docs[..|docs| - 1], chunkText, size, overlap) + DocSlots(last, chunkText(last.text, size, overlap))
  }

  /** The number of chunks of all the documents together. */
  function ChunkCount(docs: seq<Document>, chunkText: Chunker, size: int, overlap: int): nat
  {
    if docs == [] then 0
    else
      var last := docs[|docs| - 1];
      ChunkCount(docs[..|docs| - 1], chunkText, size, overlap) + |chunkText(last.text, size, overlap)|
  }

  /** Where the chunks of `docs[d]` begin: after all the chunks of the documents before it. */
  function Offset(docs: seq<Document>, d: nat, chunkText: Chunker, size: int, overlap: int): nat
    requires d <= |docs|
  {
    ChunkCount(docs[..d], chunkText, size, overlap)
  }

  /** One slot per chunk. */
  lemma {:induction false} SlotsLength(docs: seq<Document>, chunkText: Chunker, size: int, overlap: int)
    ensures |Slots(docs, chunkText, size, overlap)| == ChunkCount(docs, chunkText, size, overlap)
  {
    if docs != [] {
      SlotsLength(docs[..|docs| - 1], chunkText, size, overlap);
    }
  }

  /** The slots of two document lists in a row are the slots of the first, then the second's. */
  lemma {:induction false} SlotsAppend(a: seq<Document>, b: seq<Document>, chunkText: Chunker, size: int, overlap: int)
    ensures Slots(a + b, chunkText, size, overlap) == Slots(a, chunkText, size, overlap) + Slots(b, chunkText, size, overlap)
  {
    if b == [] {
      assert a + b == a;
    } else {
      var front, last := b[..|b| - 1], b[|b| - 1];
      assert (a + b)[..|a + b| - 1] == a + front;
      assert (a + b)[|a + b| - 1] == last;
      SlotsAppend(a, front, chunkText, size, overlap);
      var tail := DocSlots(last, chunkText(last.text, size, overlap));
      calc {
        Slots(a + b, chunkText, size, overlap);
        Slots(a + front, chunkText, size, overlap) + tail;
        (Slots(a, chunkText, size, overlap) + Slots(front, chunkText, size, overlap)) + tail;
        Slots(a, chunkText, size, overlap) + (Slots(front, chunkText, size, overlap) + tail);
        Slots(a, chunkText, size, overlap) + Slots(b, chunkText, size, overlap);
      }
    }
  }

  /** The chunk count of two document lists in a row is the sum of their counts. */
  lemma {:induction false} ChunkCountAppend(a: seq<Document>, b: seq<Document>, chunkText: Chunker, size: int, overlap: int)
    ensures ChunkCount(a + b, chunkText, size, overlap) == ChunkCount(a, chunkText, size, overlap) + ChunkCount(b, chunkText, size, overlap)
  {
    if b == [] {
      assert a + b == a;
    } else {
      var front := b[..|b| - 1];
      assert (a + b)[..|a + b| - 1] == a + front;
      assert (a + b)[|a + b| - 1] == b[|b| - 1];
      ChunkCountAppend(a, front, chunkText, size, overlap);
    }
  }

  /** Chunk `c` of document `d` sits at Offset(d) + c, with that document, that index and
      that text; the chunks of the next document start right after the last one of `d`. */
  lemma SlotAt(docs: seq<Document>, d: nat, c: nat, chunkText: Chunker, size: int, overlap: int)
    requires d < |docs| && c < |chunkText(docs[d].text, size, overlap)|
    ensures Offset(docs, d + 1, chunkText, size, overlap)
      == Offset(docs, d, chunkText, size, overlap) + |chunkText(docs[d].text, size, overlap)|
    ensures Offset(docs, d, chunkText, size, overlap) + c < |Slots(docs, chunkText, size, overlap)|
    ensures Slots(docs, chunkText, size, overlap)[Offset(docs, d, chunkText, size, overlap) + c]
      == Slot(docs[d], c, chunkText(docs[d].text, size, overlap)[c])
  {
    var before, rest := docs[..d], docs[d + 1..];
    var here := docs[..d + 1];
    assert here[..d] == before;
    assert docs == here + rest;
    SlotsAppend(here, rest, chunkText, size, overlap);
    SlotsLength(before, chunkText, size, overlap);
  }

  /** Every slot belongs to the chunk range of some document. */
  lemma {:induction false} SlotOrigin(docs: seq<Document>, p: nat, chunkText: Chunker, size: int, overlap: int)
    requires p < |Slots(docs, chunkText, size, overlap)|
    ensures exists d :: 0 <= d < |docs| && Offset(docs, d, chunkText, size, overlap) <= p
                          < Offset(docs, d, chunkText, size, overlap) + |chunkText(docs[d].text, size, overlap)|
  {
    var prefix := docs[..|docs| - 1];
    SlotsLength(prefix, chunkText, size, overlap);
    if p < |Slots(prefix, chunkText, size, overlap)| {
      SlotOrigin(prefix, p, chunkText, size, overlap);
      var d :| 0 <= d < |prefix| && Offset(prefix, d, chunkText, size, overlap) <= p
                 < Offset(prefix, d, chunkText, size, overlap) + |chunkText(prefix[d].text, size, overlap)|;
      assert docs[..d] == prefix[..d];
      assert Offset(docs, d, chunkText, size, overlap) == Offset(prefix, d, chunkText, size, overlap);
    } else {
      var d := |docs| - 1;
      assert docs[..d] == prefix;
      assert Offset(docs, d, chunkText, size, overlap) <= p;
    }
  }
}
