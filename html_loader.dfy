/** src/html_loader.py. Reading a file and extracting its text with BeautifulSoup are not
    part of this model: `extract(name)` is the text extracted from the file `name`, or None
    when reading or parsing raised. The folder listing is `Some(names)` in `os.listdir`
    order, or None when the folder does not exist. */
module HtmlLoader {
  import opened Wrappers
  import opened Records
  import opened Text
  import opened Listing

  /** `text.splitlines()`. Cutting at every line-break character also yields an empty piece
      after a trailing break and inside "\r\n"; the blank-line filter drops those, so the
      cleaned text is the same. */
  function Lines(text: string): (lines: seq<string>)
    ensures NoSeparator(lines, IsLineBreak)
  {
    Split(text, IsLineBreak)
  }

  /** `[line.strip() for line in lines if line.strip()]`. */
  function KeepStrippedLines(lines: seq<string>): (kept: seq<string>)
    ensures |kept| <= |lines|
  {
    if lines == [] then []
    else
      var line := Strip(lines[0]);
      var rest := KeepStrippedLines(lines[1..]);
      if line != [] then [line] + rest else rest
  }

  /** Every kept line is non-empty and trimmed. */
  lemma {:induction false} KeptLinesTidy(lines: seq<string>)
    ensures forall i :: 0 <= i < |KeepStrippedLines(lines)| ==>
      KeepStrippedLines(lines)[i] != [] && Trimmed(KeepStrippedLines(lines)[i])
  {
    if lines != [] {
      var line := Strip(lines[0]);
      var rest := KeepStrippedLines(lines[1..]);
      KeptLinesTidy(lines[1..]);
      if line != [] {
        var kept := [line] + rest;
        forall i | 0 <= i < |kept|
          ensures kept[i] != [] && Trimmed(kept[i])
        {
          if i > 0 {
            assert kept[i] == rest[i - 1];
          }
        }
      }
    }
  }

  /** Stripping adds no character, so lines without a line break stay without one. */
  lemma {:induction false} KeptLinesHaveNoBreak(lines: seq<string>)
    requires NoSeparator(lines, IsLineBreak)
    ensures NoSeparator(KeepStrippedLines(lines), IsLineBreak)
  {
    if lines != [] {
      var line := Strip(lines[0]);
      var rest := KeepStrippedLines(lines[1..]);
      KeptLinesHaveNoBreak(lines[1..]);
      StripAvoids(lines[0], IsLineBreak);
      if line != [] {
        var kept := [line] + rest;
        forall i, k | 0 <= i < |kept| && 0 <= k < |kept[i]|
          ensures !IsLineBreak(kept[i][k])
        {
          if i > 0 {
            assert kept[i] == rest[i - 1];
          }
        }
      }
    }
  }

  /** The cleanup of `load_html_text`: the stripped non-blank lines joined by "\n". */
  function CleanText(text: string): string
  {
    Join(KeepStrippedLines(Lines(text)), '\n')
  }

  /** `load_html_text`: the cleaned text, or "" when extraction raised. */
  function LoadHtmlText(extracted: Option<string>): string
  {
    match extracted
    case None => ""
    case Some(text) => CleanText(text)
  }

  /** `filename.lower().endswith((".html", ".htm"))`. */
  predicate IsHtmlFile(name: string)
  {
    EndsWith(Lower(name), ".html") || EndsWith(Lower(name), ".htm")
  }

  /** The test of the loop of `load_all_html_from_folder`: an HTML file name, and loaded text
      that is not blank. */
  predicate KeepsHtml(name: string, text: string)
  {
    IsHtmlFile(name) && Strip(text) != []
  }

  /** `docs` after the loop of `load_all_html_from_folder` has seen `names`. */
  function HtmlDocs(names: seq<string>, extract: string -> Option<string>): seq<Document>
  {
    Scan(names, KeepsHtml, name => LoadHtmlText(extract(name)))
  }

  /** The loop's next pass appends the file `names[i]` when the loader keeps it. */
  lemma HtmlDocsNext(names: seq<string>, i: nat, extract: string -> Option<string>)
    requires i < |names|
    ensures var text := LoadHtmlText(extract(names[i]));
      if KeepsHtml(names[i], text)
      then HtmlDocs(names[..i + 1], extract) == HtmlDocs(names[..i], extract) + [Document(names[i], text, Some(names[i]))]
      else HtmlDocs(names[..i + 1], extract) == HtmlDocs(names[..i], extract)
  {
    assert names[..i + 1][..i] == names[..i];
  }

  /** `load_all_html_from_folder`: nothing for a missing folder; otherwise one document per
      HTML file whose loaded text is not blank, in listing order. */
  method LoadAllHtmlFromFolder(folder: Option<seq<string>>, extract: string -> Option<string>)
    returns (docs: seq<Document>)
    ensures folder.None? ==> docs == []
    ensures folder.Some? ==> docs == HtmlDocs(folder.value, extract)
  {
    docs := [];
    if folder.None? {
      return docs;
    }
    var names := folder.value;
    for i := 0 to |names|
      invariant docs == HtmlDocs(names[..i], extract)
    {
      var filename := names[i];
      HtmlDocsNext(names, i, extract);
      if IsHtmlFile(filename) {
        var text := LoadHtmlText(extract(filename));
        if Strip(text) != [] {
          docs := docs + [Document(filename, text, Some(filename))];
        }
      }
    }
    assert names[..|names|] == names;
  }

  /** Lines that are already non-blank and trimmed pass the filter unchanged. */
  lemma {:induction false} KeepTidyLines(lines: seq<string>)
    requires forall i :: 0 <= i < |lines| ==> lines[i] != [] && Trimmed(lines[i])
    ensures KeepStrippedLines(lines) == lines
  {
    if lines != [] {
      KeepTidyLines(lines[1..]);
    }
  }

  /** The lines of the cleaned text are exactly the stripped non-blank input lines, in order;
      each is non-empty and has no leading or trailing whitespace. */
  lemma CleanTextLines(text: string)
    requires KeepStrippedLines(Lines(text)) != []
    ensures Lines(CleanText(text)) == KeepStrippedLines(Lines(text))
    ensures forall i :: 0 <= i < |Lines(CleanText(text))| ==>
      Lines(CleanText(text))[i] != [] && Trimmed(Lines(CleanText(text))[i])
  {
    KeptLinesHaveNoBreak(Lines(text));
    KeptLinesTidy(Lines(text));
    SplitJoin(KeepStrippedLines(Lines(text)), '\n', IsLineBreak);
  }

  /** The cleaned text is blank exactly when no input line has a non-space character, and
      then it is "". */
  lemma CleanTextBlank(text: string)
    ensures Strip(CleanText(text)) == [] <==> KeepStrippedLines(Lines(text)) == []
    ensures KeepStrippedLines(Lines(text)) == [] ==> CleanText(text) == []
  {
    var kept := KeepStrippedLines(Lines(text));
    KeptLinesTidy(Lines(text));
    if kept != [] {
      JoinStartsWith(kept, '\n');
      var t := CleanText(text);
      assert t[0] == kept[0][0];
      StripBlank(t);
    }
  }

  /** Cleaning cleaned text changes nothing. */
  lemma CleanTextIdempotent(text: string)
    ensures CleanText(CleanText(text)) == CleanText(text)
  {
    var kept := KeepStrippedLines(Lines(text));
    if kept == [] {
      assert CleanText(text) == [];
      assert Lines([]) == [[]];
    } else {
      CleanTextLines(text);
      KeepTidyLines(kept);
    }
  }

  /** Every document returned is a listed HTML file with its loaded text, which is not
      blank, and is its own source. */
  lemma HtmlDocsSound(names: seq<string>, extract: string -> Option<string>)
    ensures forall doc :: doc in HtmlDocs(names, extract) ==>
      && doc.docName in names
      && IsHtmlFile(doc.docName)
      && doc.text == LoadHtmlText(extract(doc.docName))
      && Strip(doc.text) != []
      && doc.source == Some(doc.docName)
  {
    ScanSound(names, KeepsHtml, name => LoadHtmlText(extract(name)));
  }

  /** Every listed HTML file whose loaded text is not blank is returned. */
  lemma HtmlDocsComplete(names: seq<string>, extract: string -> Option<string>)
    ensures forall name :: name in names && IsHtmlFile(name) && Strip(LoadHtmlText(extract(name))) != [] ==>
      name in DocNames(HtmlDocs(names, extract))
  {
    ScanComplete(names, KeepsHtml, name => LoadHtmlText(extract(name)));
  }

  /** A file whose extraction raised loads as "" and is skipped. */
  lemma ExtractionErrorSkipped(names: seq<string>, extract: string -> Option<string>, name: string)
    requires extract(name).None?
    ensures forall doc :: doc in HtmlDocs(names, extract) ==> doc.docName != name
  {
    HtmlDocsSound(names, extract);
    assert Strip([]) == [];
  }

  /** A name ending in ".html" or ".htm", in any mix of cases, passes the filter. */
  lemma ExtensionAccepted(base: string, suffix: string)
    requires Lower(suffix) == ".html" || Lower(suffix) == ".htm"
    ensures IsHtmlFile(base + suffix)
  {
    LowerSuffix(base + suffix, |base|);
    assert (base + suffix)[|base|..] == suffix;
  }

  /** The filter reads only the end of the name: a name passes exactly when its last five
      characters lower to ".html" or its last four lower to ".htm". */
  lemma ExtensionTest(name: string)
    ensures IsHtmlFile(name) <==>
      (|name| >= 5 && Lower(name[|name| - 5..]) == ".html") || (|name| >= 4 && Lower(name[|name| - 4..]) == ".htm")
  {
    if |name| >= 5 {
      LowerSuffix(name, |name| - 5);
    }
    if |name| >= 4 {
      LowerSuffix(name, |name| - 4);
    }
  }
}
