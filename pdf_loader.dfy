/** src/pdf_loader.py. Opening a PDF and extracting a page's text are not part of this
    model: `read(name)` is the list of `page.extract_text()` results of the file `name` (None
    for a page without text), or None when the reader raised. The loader catches nothing,
    so that error, like a missing folder in `os.listdir`, ends the whole load. */
module PdfLoader {
  import opened Wrappers
  import opened Records
  import opened Text
  import opened Listing

  /** `(page.extract_text() or "").replace("\n", " ").strip()`: trimmed and free of "\n". */
  function NormalisePage(page: Option<string>): (text: string)
    ensures Trimmed(text)
    ensures forall k :: 0 <= k < |text| ==> !IsNewline(text[k])
  {
    var flat := Replace(page.GetOr(""), '\n', ' ');
    StripAvoids(flat, IsNewline);
    Strip(flat)
  }

  /** `pages` after the loop of `load_pdf_text`: the non-empty normalised pages, in order. */
  function KeptPages(pages: seq<Option<string>>): (kept: seq<string>)
    ensures |kept| <= |pages|
  {
    if pages == [] then []
    else
      var kept := KeptPages(pages[..|pages| - 1]);
      var text := NormalisePage(pages[|pages| - 1]);
      if text != [] then kept + [text] else kept
  }

  /** A page as it is kept: not empty, trimmed, and without "\n". */
  predicate PageLine(text: string)
  {
    text != [] && Trimmed(text) && forall k :: 0 <= k < |text| ==> !IsNewline(text[k])
  }

  /** Every kept page is non-empty, trimmed and free of "\n". */
  lemma {:induction false} KeptPagesTidy(pages: seq<Option<string>>)
    ensures forall i :: 0 <= i < |KeptPages(pages)| ==> PageLine(KeptPages(pages)[i])
  {
    if pages != [] {
      var prev := pages[..|pages| - 1];
      KeptPagesTidy(prev);
      var kept := KeptPages(prev);
      var text := NormalisePage(pages[|pages| - 1]);
      if text != [] {
        forall i | 0 <= i < |kept + [text]|
          ensures PageLine((kept + [text])[i])
        {
          if i < |kept| {
            assert (kept + [text])[i] == kept[i];
          }
        }
      }
    }
  }

  /** The value of `load_pdf_text`. */
  function PdfText(pages: seq<Option<string>>): string
  {
    Join(KeptPages(pages), '\n')
  }

  /** `load_pdf_text`, on the pages the reader returned. */
  method LoadPdfText(readerPages: seq<Option<string>>) returns (text: string)
    ensures text == PdfText(readerPages)
  {
    var pages: seq<string> := [];
    for i := 0 to |readerPages|
      invariant pages == KeptPages(readerPages[..i])
    {
      assert readerPages[..i + 1][..i] == readerPages[..i];
      var pageText := readerPages[i].GetOr("");
      pageText := Strip(Replace(pageText, '\n', ' '));
      if pageText != [] {
        pages := pages + [pageText];
      }
    }
    assert readerPages[..|readerPages|] == readerPages;
    text := Join(pages, '\n');
  }

  /** `filename.lower().endswith(".pdf")`. */
  predicate IsPdfFile(name: string)
  {
    EndsWith(Lower(name), ".pdf")
  }

  /** The test of the loop of `load_all_pdfs_from_folder`: a PDF file name, and loaded text
      that is not blank. */
  predicate KeepsPdf(name: string, text: string)
  {
    IsPdfFile(name) && Strip(text) != []
  }

  /** The text loaded from a readable file ("" stands for an unreadable one, which the loader
      never gets past). */
  function FileText(read: string -> Option<seq<Option<string>>>, name: string): string
  {
    match read(name)
    case None => ""
    case Some(pages) => PdfText(pages)
  }

  datatype LoadError = FolderNotFound | UnreadablePdf(name: string)

  /** Every PDF file among `names` can be read. */
  predicate AllReadable(names: seq<string>, read: string -> Option<seq<Option<string>>>)
  {
    forall i :: 0 <= i < |names| && IsPdfFile(names[i]) ==> read(names[i]).Some?
  }

  /** One pass of the loop of `load_all_pdfs_from_folder` over the file `name`, with the
      documents collected so far. */
  function AddPdf(pdfs: seq<Document>, name: string, read: string -> Option<seq<Option<string>>>): Result<seq<Document>, LoadError>
  {
    if !IsPdfFile(name) then Success(pdfs)
    else
      match read(name)
      case None => Failure(UnreadablePdf(name))
      case Some(pages) =>
        var text := PdfText(pages);
        if Strip(text) != [] then Success(pdfs + [Document(name, text, Some(name))]) else Success(pdfs)
  }

  /** The result of `load_all_pdfs_from_folder` once the loop has seen `names`: the first
      unreadable PDF file ends it. */
  function PdfDocs(names: seq<string>, read: string -> Option<seq<Option<string>>>): Result<seq<Document>, LoadError>
  {
    if names == [] then Success([])
    else
      match PdfDocs(names[..|names| - 1], read)
      case Failure(e) => Failure(e)
      case Success(pdfs) => AddPdf(pdfs, names[|names| - 1], read)
  }

  /** The loop's next pass extends the result for the files seen so far. */
  lemma PdfDocsNext(names: seq<string>, i: nat, pdfs: seq<Document>, read: string -> Option<seq<Option<string>>>)
    requires i < |names| && PdfDocs(names[..i], read) == Success(pdfs)
    ensures PdfDocs(names[..i + 1], read) == AddPdf(pdfs, names[i], read)
  {
    assert names[..i + 1][..i] == names[..i];
  }

  /** Once the loop has failed, the files after the failing one change nothing. */
  lemma {:induction false} FailureStops(names: seq<string>, j: nat, read: string -> Option<seq<Option<string>>>)
    requires j <= |names| && PdfDocs(names[..j], read).Failure?
    ensures PdfDocs(names, read) == PdfDocs(names[..j], read)
  {
    if j < |names| {
      var prefix := names[..|names| - 1];
      assert prefix[..j] == names[..j];
      FailureStops(prefix, j, read);
    } else {
      assert names[..j] == names;
    }
  }

  /** `load_all_pdfs_from_folder`: an error for a missing folder or an unreadable PDF file,
      otherwise one document per PDF file whose text is not blank, in listing order. */
  method LoadAllPdfsFromFolder(folder: Option<seq<string>>, read: string -> Option<seq<Option<string>>>)
    returns (result: Result<seq<Document>, LoadError>)
    ensures folder.None? ==> result == Failure(FolderNotFound)
    ensures folder.Some? ==> result == PdfDocs(folder.value, read)
  {
    if folder.None? {
      return Failure(FolderNotFound);
    }
    var names := folder.value;
    var pdfs: seq<Document> := [];
    for i := 0 to |names|
      invariant PdfDocs(names[..i], read) == Success(pdfs)
    {
      var filename := names[i];
      PdfDocsNext(names, i, pdfs, read);
      if IsPdfFile(filename) {
        var readerPages := read(filename);
        if readerPages.None? {
          FailureStops(names, i + 1, read);
          return Failure(UnreadablePdf(filename));
        }
        var text := LoadPdfText(readerPages.value);
        if Strip(text) != [] {
          pdfs := pdfs + [Document(filename, text, Some(filename))];
        }
      }
    }
    assert names[..|names|] == names;
    return Success(pdfs);
  }

  /** The text loaded for each file name, as the folder scan takes it. */
  function LoadedText(read: string -> Option<seq<Option<string>>>): string -> string
  {
    name => FileText(read, name)
  }

  /** One pass of the loop fails exactly on an unreadable PDF file, and otherwise does what
      the folder scan does with that file. */
  lemma AddPdfStep(pdfs: seq<Document>, name: string, read: string -> Option<seq<Option<string>>>)
    ensures AddPdf(pdfs, name, read).Failure? <==> IsPdfFile(name) && read(name).None?
    ensures AddPdf(pdfs, name, read).Success? ==>
      AddPdf(pdfs, name, read).value
        == pdfs + if KeepsPdf(name, LoadedText(read)(name)) then [Document(name, LoadedText(read)(name), Some(name))] else []
  {
    if AddPdf(pdfs, name, read).Success? && !KeepsPdf(name, LoadedText(read)(name)) {
      assert pdfs + [] == pdfs;
    }
  }

  /** Every PDF file of `names` is readable when every earlier one is and the last one is. */
  lemma AllReadableNext(names: seq<string>, read: string -> Option<seq<Option<string>>>)
    requires names != []
    ensures AllReadable(names, read) <==>
      AllReadable(names[..|names| - 1], read) && !(IsPdfFile(names[|names| - 1]) && read(names[|names| - 1]).None?)
  {
    var prefix := names[..|names| - 1];
    assert forall i :: 0 <= i < |prefix| ==> prefix[i] == names[i];
  }

  /** The load succeeds exactly when every PDF file can be read. */
  lemma {:induction false} PdfDocsSucceeds(names: seq<string>, read: string -> Option<seq<Option<string>>>)
    ensures PdfDocs(names, read).Success? <==> AllReadable(names, read)
  {
    if names != [] {
      var prefix := names[..|names| - 1];
      PdfDocsSucceeds(prefix, read);
      AllReadableNext(names, read);
      if PdfDocs(prefix, read).Success? {
        AddPdfStep(PdfDocs(prefix, read).value, names[|names| - 1], read);
      }
    }
  }

  /** A successful load is the folder scan that keeps the PDF files with non-blank text. */
  lemma {:induction false} PdfDocsScan(names: seq<string>, read: string -> Option<seq<Option<string>>>)
    requires PdfDocs(names, read).Success?
    ensures PdfDocs(names, read).value == Scan(names, KeepsPdf, LoadedText(read))
  {
    if names != [] {
      var prefix := names[..|names| - 1];
      assert PdfDocs(prefix, read).Success?;
      PdfDocsScan(prefix, read);
      AddPdfStep(PdfDocs(prefix, read).value, names[|names| - 1], read);
    }
  }

  /** A failed load names the first PDF file that could not be read. */
  lemma {:induction false} PdfDocsFailure(names: seq<string>, read: string -> Option<seq<Option<string>>>)
    requires PdfDocs(names, read).Failure?
    ensures exists i :: (0 <= i < |names|
      && PdfDocs(names, read).error == UnreadablePdf(names[i])
      && IsPdfFile(names[i]) && read(names[i]).None?
      && AllReadable(names[..i], read))
  {
    var prefix := names[..|names| - 1];
    PdfDocsSucceeds(prefix, read);
    if PdfDocs(prefix, read).Failure? {
      PdfDocsFailure(prefix, read);
      var i :| 0 <= i < |prefix|
        && PdfDocs(prefix, read).error == UnreadablePdf(prefix[i])
        && IsPdfFile(prefix[i]) && read(prefix[i]).None?
        && AllReadable(prefix[..i], read);
      assert prefix[..i] == names[..i];
    } else {
      assert names[..|names| - 1] == prefix;
    }
  }

  /** After a successful load, every document is a listed PDF file with its non-blank text,
      and is its own source; every PDF file with non-blank text is among them. */
  lemma PdfDocsSoundComplete(names: seq<string>, read: string -> Option<seq<Option<string>>>)
    requires PdfDocs(names, read).Success?
    ensures forall doc :: doc in PdfDocs(names, read).value ==>
      && doc.docName in names
      && IsPdfFile(doc.docName)
      && read(doc.docName).Some? && doc.text == PdfText(read(doc.docName).value)
      && Strip(doc.text) != []
      && doc.source == Some(doc.docName)
    ensures forall name :: name in names && IsPdfFile(name) && Strip(FileText(read, name)) != [] ==>
      name in DocNames(PdfDocs(names, read).value)
  {
    PdfDocsScan(names, read);
    ScanSound(names, KeepsPdf, LoadedText(read));
    ScanComplete(names, KeepsPdf, LoadedText(read));
    forall doc | doc in PdfDocs(names, read).value
      ensures read(doc.docName).Some?
    {
      var i :| 0 <= i < |names| && names[i] == doc.docName;
    }
  }

  /** A page without text counts as "" and is dropped. */
  lemma MissingPageDropped(pages: seq<Option<string>>)
    ensures KeptPages(pages + [None]) == KeptPages(pages)
  {
    assert (pages + [None])[..|pages|] == pages;
    assert NormalisePage(None) == [];
  }

  /** The pages of the text are the kept pages: splitting at "\n" gives them back, and there
      is one "\n" fewer than kept pages (none when no page is kept). */
  lemma PdfTextPages(pages: seq<Option<string>>)
    ensures KeptPages(pages) != [] ==> Split(PdfText(pages), IsNewline) == KeptPages(pages)
    ensures Count(PdfText(pages), '\n') == if KeptPages(pages) == [] then 0 else |KeptPages(pages)| - 1
  {
    var kept := KeptPages(pages);
    KeptPagesTidy(pages);
    if kept != [] {
      assert NoSeparator(kept, IsNewline);
      SplitJoin(kept, '\n', IsNewline);
      JoinCount(kept, '\n');
    }
  }

  /** The text is blank exactly when no page is kept, and then it is "". */
  lemma PdfTextBlank(pages: seq<Option<string>>)
    ensures Strip(PdfText(pages)) == [] <==> KeptPages(pages) == []
    ensures KeptPages(pages) == [] ==> PdfText(pages) == []
  {
    var kept := KeptPages(pages);
    KeptPagesTidy(pages);
    if kept != [] {
      JoinStartsWith(kept, '\n');
      var t := PdfText(pages);
      assert PageLine(kept[0]);
      assert t[0] == kept[0][0];
      StripBlank(t);
    }
  }

  /** A name ending in ".pdf", in any mix of cases, passes the filter. */
  lemma ExtensionAccepted(base: string, suffix: string)
    requires Lower(suffix) == ".pdf"
    ensures IsPdfFile(base + suffix)
  {
    LowerSuffix(base + suffix, |base|);
    assert (base + suffix)[|base|..] == suffix;
  }

  /** The filter reads only the end of the name: a name passes exactly when its last four
      characters lower to ".pdf". */
  lemma ExtensionTest(name: string)
    ensures IsPdfFile(name) <==> |name| >= 4 && Lower(name[|name| - 4..]) == ".pdf"
  {
    if |name| >= 4 {
      LowerSuffix(name, |name| - 4);
    }
  }

  /** Only the end of the name counts: ".pdf" followed by another extension does not pass. */
  lemma ExtensionRejected(base: string)
    ensures !IsPdfFile(base + ".pdf.md")
  {
    assert Lower(base + ".pdf.md")[|base| + 6] == 'd';
  }
}
