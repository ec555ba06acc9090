/** The folder scan both loaders run over `os.listdir(folder)`: a file that the loader keeps
    (its name passes the extension test and its loaded text is not blank) becomes a document
    named after the file, with the file name as its source; every other file is skipped. */
module Listing {
  import opened Wrappers
  import opened Records

  /** The documents the scan has collected after seeing `names`. */
  function Scan(names: seq<string>, keep: (string, string) -> bool, load: string -> string): seq<Document>
  {
    if names == [] then []
    else
      var name := names[|names| - 1];
      var text := load(name);
      Scan(names[..|names| - 1], keep, load)
        + if keep(name, text) then [Document(name, text, Some(name))] else []
  }

  function DocNames(docs: seq<Document>): seq<string>
  {
    seq(|docs|, k requires 0 <= k < |docs| => docs[k].docName)
  }

  /** `doc` is what the scan makes of a listed file it keeps: named after the file, holding
      the file's loaded text, with the file name as its source. */
  predicate Collected(doc: Document, names: seq<string>, keep: (string, string) -> bool, load: string -> string)
  {
    && doc.docName in names
    && doc.text == load(doc.docName)
    && keep(doc.docName, doc.text)
    && doc.source == Some(doc.docName)
  }

  /** Every document collected comes from a listed file the loader keeps. */
  lemma {:induction false} ScanSound(names: seq<string>, keep: (string, string) -> bool, load: string -> string)
    ensures forall doc :: doc in Scan(names, keep, load) ==> Collected(doc, names, keep, load)
  {
    if names != [] {
      var prefix := names[..|names| - 1];
      ScanSound(prefix, keep, load);
      forall doc | doc in Scan(names, keep, load)
        ensures Collected(doc, names, keep, load)
      {
        if doc in Scan(prefix, keep, load) {
          assert Collected(doc, prefix, keep, load);
          var i :| 0 <= i < |prefix| && prefix[i] == doc.docName;
          assert names[i] == doc.docName;
        } else {
          assert names[|names| - 1] == doc.docName;
        }
      }
    }
  }

  /** Every listed file the loader keeps is collected. */
  lemma {:induction false} ScanComplete(names: seq<string>, keep: (string, string) -> bool, load: string -> string)
    ensures forall name :: name in names && keep(name, load(name)) ==>
      name in DocNames(Scan(names, keep, load))
  {
    if names != [] {
      var prefix := names[..|names| - 1];
      ScanComplete(prefix, keep, load);
      var docs := Scan(names, keep, load);
      var before := Scan(prefix, keep, load);
      forall name | name in names && keep(name, load(name))
        ensures name in DocNames(docs)
      {
        if name in prefix {
          var k :| 0 <= k < |before| && DocNames(before)[k] == name;
          assert docs[k] == before[k];
          assert DocNames(docs)[k] == name;
        } else {
          assert DocNames(docs)[|docs| - 1] == name;
        }
      }
    }
  }

  /** File `a` is listed before file `b`. */
  predicate ListedBefore(names: seq<string>, a: string, b: string)
  {
    exists i, j :: 0 <= i < j < |names| && names[i] == a && names[j] == b
  }

  /** The documents keep the listing order: of two documents, the earlier one is a file
      listed before the later one. */
  lemma {:induction false} ScanOrdered(names: seq<string>, keep: (string, string) -> bool, load: string -> string)
    ensures forall k, l :: 0 <= k < l < |Scan(names, keep, load)| ==>
      ListedBefore(names, Scan(names, keep, load)[k].docName, Scan(names, keep, load)[l].docName)
  {
    if names != [] {
      var prefix := names[..|names| - 1];
      ScanOrdered(prefix, keep, load);
      ScanSound(prefix, keep, load);
      var before := Scan(prefix, keep, load);
      var docs := Scan(names, keep, load);
      forall k, l | 0 <= k < l < |docs|
        ensures ListedBefore(names, docs[k].docName, docs[l].docName)
      {
        assert docs[k] == before[k];
        if l < |before| {
          assert docs[l] == before[l];
          assert ListedBefore(prefix, before[k].docName, before[l].docName);
          var i, j :| 0 <= i < j < |prefix| && prefix[i] == before[k].docName && prefix[j] == before[l].docName;
          assert names[i] == docs[k].docName && names[j] == docs[l].docName;
        } else {
          assert before[k] in before;
          var i :| 0 <= i < |prefix| && prefix[i] == before[k].docName;
          assert names[i] == docs[k].docName && names[|names| - 1] == docs[l].docName;
        }
      }
    }
  }
}
