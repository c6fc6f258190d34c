/** The invoice document: the text lines as a page content stream inside the five-object file. */
module InvoicePdf {
  import opened Results
  import opened PdfFile
  import opened PdfLiteral
  import opened PdfContent
  import opened PdfReader
  import opened Decimal
  import opened Scan

  const CATALOG := "<< /Type /Catalog /Pages 2 0 R >>"
  const PAGES := "<< /Type /Pages /Kids [3 0 R] /Count 1 >>"
  const PAGE_TYPE := "<< /Type /Page /Parent 2 0 R "
  const PAGE_BOX := "/MediaBox [0 0 612 792] "
  const PAGE_RESOURCES := "/Resources << /Font << /F1 5 0 R >> >> "
  const PAGE_CONTENTS := "/Contents 4 0 R >>"
  const PAGE := PAGE_TYPE + PAGE_BOX + PAGE_RESOURCES + PAGE_CONTENTS
  const FONT_TYPE := "<< /Type /Font /Subtype "
  const FONT_BASE := "/Type1 /BaseFont /Courier >>"
  const FONT := FONT_TYPE + FONT_BASE

  function Five(catalog: string, pages: string, page: string, content: string, font: string): seq<Object> {
    [Plain(catalog), Plain(pages), Plain(page), Stream(content), Plain(font)]
  }

  function Document(lines: seq<string>): seq<Object> {
    Five(CATALOG, PAGES, PAGE, TEXT_PAGE.Content(lines), FONT)
  }

  /** `text.replace(c, by)`: every occurrence of one character. */
  function Replace(text: string, c: char, sub: string): string {
    if text == "" then "" else (if text[0] == c then sub else [text[0]]) + Replace(text[1..], c, sub)
  }

  lemma {:induction false} ReplaceConcat(a: string, b: string, c: char, sub: string)
    ensures Replace(a + b, c, sub) == Replace(a, c, sub) + Replace(b, c, sub)
  {
    if a == "" {
      assert a + b == b;
    } else {
      assert (a + b)[1..] == a[1..] + b;
      ReplaceConcat(a[1..], b, c, sub);
    }
  }

  function Replaced(line: string): string {
    Replace(Replace(Replace(line, '\\', "\\\\"), '(', "["), ')', "]")
  }

  /** The three successive replacements amount to one escape per character. */
  lemma {:induction false} ReplacementsEscape(line: string)
    ensures Replaced(line) == Escape(line)
  {
    if line != "" {
      var once := if line[0] == '\\' then "\\\\" else [line[0]];
      var twice := Replace(once, '(', "[");
      var tail := Replace(line[1..], '\\', "\\\\");
      ReplaceConcat(once, tail, '(', "[");
      ReplaceConcat(twice, Replace(tail, '(', "["), ')', "]");
      ReplaceOne(line[0]);
      ReplacementsEscape(line[1..]);
    }
  }

  lemma ReplaceOne(c: char)
    ensures var once := if c == '\\' then "\\\\" else [c];
            Replace(Replace(once, '(', "["), ')', "]") == EscapeChar(c)
  {
    if c == '\\' {
      ReplaceConcat("\\", "\\", '(', "[");
      ReplaceConcat("\\", "\\", ')', "]");
      assert "\\\\" == "\\" + "\\";
      assert Replace("\\", '(', "[") == "\\" && Replace("\\", ')', "]") == "\\";
    }
  }

  method Generate(lines: seq<string>) returns (output: string)
    ensures output == PDF.FileText(PDF.Texts(Document(lines)))
    ensures ReadInvoice(output) == if OffsetsFit(PDF, PDF.Texts(Document(lines))) then Some(AllAsRead(lines)) else None
  {
    var escaped: seq<string> := [];
    for i := 0 to |lines|
      invariant escaped == TEXT_PAGE.Shows(lines)[..i]
    {
      ReplacementsEscape(lines[i]);
      escaped := escaped + ["(" + Replaced(lines[i]) + ")" + TEXT_PAGE.show];
    }
    assert escaped == TEXT_PAGE.Shows(lines);
    var stream := Encode(TEXT_PAGE.begin + Join(escaped) + TEXT_PAGE.end);
    output := PDF.Assemble(PDF.Texts([Plain(CATALOG), Plain(PAGES), Plain(PAGE), Stream(stream), Plain(FONT)]));
    ReaderRoundTrip(lines);
  }

  /** The shape of the four fixed objects: a dictionary on one line whose first key is `/Type`. */
  predicate OneLineDictionary(body: string) {
    |body| > 4 && body[4] == 'T' && '\n' !in body
  }

  lemma CatalogIsDictionary()
    ensures OneLineDictionary(CATALOG) && OneLineDictionary(PAGES)
  {
  }

  lemma PageIsDictionary()
    ensures OneLineDictionary(PAGE)
  {
    assert OneLineDictionary(PAGE_TYPE);
    Extended(PAGE_TYPE, PAGE_BOX);
    Extended(PAGE_TYPE + PAGE_BOX, PAGE_RESOURCES);
    Extended(PAGE_TYPE + PAGE_BOX + PAGE_RESOURCES, PAGE_CONTENTS);
  }

  lemma FontIsDictionary()
    ensures OneLineDictionary(FONT)
  {
    assert OneLineDictionary(FONT_TYPE);
    Extended(FONT_TYPE, FONT_BASE);
  }

  lemma Extended(a: string, b: string)
    requires OneLineDictionary(a) && '\n' !in b
    ensures OneLineDictionary(a + b)
  {
  }

  lemma DictionaryIsDelimited(body: string)
    requires OneLineDictionary(body)
    ensures PDF.Delimited(Plain(body))
  {
    assert PDF.length[4] == 'L' && PDF.endobj[0] == '\n';
    assert body[0 + 4] != PDF.length[4];
    forall q | 0 <= q < |body| ensures !Scan.At(body + PDF.endobj, q, PDF.endobj) {
      assert (body + PDF.endobj)[q + 0] == body[q] && body[q] in body;
    }
  }

  lemma DocumentIsDelimited(lines: seq<string>)
    ensures forall o :: o in Document(lines) ==> PDF.Delimited(o)
  {
    CatalogIsDictionary();
    PageIsDictionary();
    FontIsDictionary();
    FiveDelimited(CATALOG, PAGES, PAGE, TEXT_PAGE.Content(lines), FONT);
  }

  lemma FiveDelimited(a: string, b: string, c: string, content: string, d: string)
    requires OneLineDictionary(a) && OneLineDictionary(b) && OneLineDictionary(c) && OneLineDictionary(d)
    ensures forall o :: o in Five(a, b, c, content, d) ==> PDF.Delimited(o)
  {
    DictionaryIsDelimited(a);
    DictionaryIsDelimited(b);
    DictionaryIsDelimited(c);
    DictionaryIsDelimited(d);
  }

  /**
   The whole document, read from its last bytes back to its text: the reader finds the five objects in
   order, and the page content shows every line, whatever the lines contain.
   */
  lemma InvoiceRoundTrip(lines: seq<string>)
    ensures PDF.ReadFile(PDF.FileText(PDF.Texts(Document(lines)))) == Some(Document(lines)) <==> OffsetsFit(PDF, PDF.Texts(Document(lines)))
    ensures TEXT_PAGE.ReadContent(Document(lines)[3].content) == Some(AllAsRead(lines))
  {
    PdfIsSane();
    DocumentIsDelimited(lines);
    PDF.FileRoundTrip(Document(lines));
    TextPageIsSane();
    TEXT_PAGE.ContentRoundTrip(lines);
  }

  // ---------------------------------------------------------------- what a reader of the standard sees

  lemma CatalogWords()
    ensures CATALOG == "<< /Type /Catalog " + "/Pages " + Digits(2) + " 0 R" + " >>"
  {
  }

  lemma CatalogReadBack()
    ensures At(CATALOG, 0, "<< /Type /Catalog ") && NumberUnder(CATALOG, "/Pages ", " 0 R") == Some(2)
  {
    CatalogWords();
    NumberFound(CATALOG, "<< /Type /Catalog ", "/Pages ", 2, " 0 R", " >>");
  }

  lemma KidsWords()
    ensures PAGES == "<< /Type /Pages " + "/Kids [" + Digits(3) + " 0 R]" + " /Count 1 >>"
  {
  }

  lemma KidsReadBack()
    ensures At(PAGES, 0, "<< /Type /Pages ") && NumberUnder(PAGES, "/Kids [", " 0 R]") == Some(3)
  {
    KidsWords();
    NumberFound(PAGES, "<< /Type /Pages ", "/Kids [", 3, " 0 R]", " /Count 1 >>");
  }

  lemma CountWords()
    ensures PAGES == "<< /Type /Pages /Kids [3 0 R] " + "/Count " + Digits(1) + " >>" + ""
  {
  }

  lemma CountReadBack()
    ensures NumberUnder(PAGES, "/Count ", " >>") == Some(1)
  {
    CountWords();
    NumberFound(PAGES, "<< /Type /Pages /Kids [3 0 R] ", "/Count ", 1, " >>", "");
  }

  lemma PageStart()
    ensures At(PAGE, 0, "<< /Type /Page /Parent 2 0 R ")
  {
    assert PAGE == PAGE_TYPE + (PAGE_BOX + PAGE_RESOURCES + PAGE_CONTENTS);
  }

  lemma BoxWords()
    ensures PAGE_BOX == "/MediaBox [0 0 612 " + Digits(792) + "] "
  {
  }

  lemma BoxReadBack()
    ensures NumberUnder(PAGE, "/MediaBox [0 0 612 ", "] ") == Some(792)
  {
    BoxWords();
    assert PAGE == PAGE_TYPE + "/MediaBox [0 0 612 " + Digits(792) + "] " + (PAGE_RESOURCES + PAGE_CONTENTS);
    NumberFound(PAGE, PAGE_TYPE, "/MediaBox [0 0 612 ", 792, "] ", PAGE_RESOURCES + PAGE_CONTENTS);
  }

  lemma ResourceWords()
    ensures PAGE_RESOURCES == "/Resources << " + "/Font << /F1 " + Digits(5) + " 0 R >> >> "
  {
  }

  lemma NoFontBefore()
    ensures NoName(PAGE_TYPE + PAGE_BOX + "/Resources << ", 'F')
  {
    assert NoName(PAGE_TYPE, 'F') && NoName(PAGE_BOX, 'F') && NoName("/Resources << ", 'F');
    NoNameConcat(PAGE_TYPE, PAGE_BOX, 'F');
    NoNameConcat(PAGE_TYPE + PAGE_BOX, "/Resources << ", 'F');
  }

  lemma FontReadBack()
    ensures NumberUnder(PAGE, "/Font << /F1 ", " 0 R >> >> ") == Some(5)
  {
    var before := PAGE_TYPE + PAGE_BOX + "/Resources << ";
    ResourceWords();
    NoFontBefore();
    assert PAGE == before + "/Font << /F1 " + Digits(5) + " 0 R >> >> " + PAGE_CONTENTS;
    NumberFound(PAGE, before, "/Font << /F1 ", 5, " 0 R >> >> ", PAGE_CONTENTS);
  }

  lemma ContentsWords()
    ensures PAGE_CONTENTS == "/Contents " + Digits(4) + " 0 R >>"
  {
  }

  lemma NoContentsBefore()
    ensures NoName(PAGE_TYPE + PAGE_BOX + PAGE_RESOURCES, 'C')
  {
    assert NoName(PAGE_TYPE, 'C') && NoName(PAGE_BOX, 'C') && NoName(PAGE_RESOURCES, 'C');
    NoNameConcat(PAGE_TYPE, PAGE_BOX, 'C');
    NoNameConcat(PAGE_TYPE + PAGE_BOX, PAGE_RESOURCES, 'C');
  }

  lemma ContentsReadBack()
    ensures NumberUnder(PAGE, "/Contents ", " 0 R >>") == Some(4)
  {
    var before := PAGE_TYPE + PAGE_BOX + PAGE_RESOURCES;
    ContentsWords();
    NoContentsBefore();
    assert PAGE == before + "/Contents " + Digits(4) + " 0 R >>" + "";
    NumberFound(PAGE, before, "/Contents ", 4, " 0 R >>", "");
  }

  lemma FontWords()
    ensures At(FONT, 0, "<< /Type /Font /Subtype ") && At(FONT, 24, "/Type1 /BaseFont /Courier >>")
  {
    AtEnd(FONT_TYPE, FONT_BASE);
    assert |FONT_TYPE| == 24;
  }

  lemma KidFollows(objects: seq<Object>, pages: string, page: string)
    requires |objects| == 5 && objects[1] == Plain(pages) && objects[2] == Plain(page)
    requires At(pages, 0, "<< /Type /Pages ") && NumberUnder(pages, "/Count ", " >>") == Some(1)
    requires NumberUnder(pages, "/Kids [", " 0 R]") == Some(3) && At(page, 0, "<< /Type /Page /Parent 2 0 R ")
    ensures KidOf(objects, 2) == Some(page)
  {
  }

  lemma PagesFollow(objects: seq<Object>)
    requires |objects| == 5 && objects[1] == Plain(PAGES) && objects[2] == Plain(PAGE)
    ensures KidOf(objects, 2) == Some(PAGE)
  {
    KidsReadBack();
    CountReadBack();
    PageStart();
    KidFollows(objects, PAGES, PAGE);
  }

  lemma CatalogFollows(objects: seq<Object>)
    requires |objects| == 5 && objects[0] == Plain(CATALOG)
    ensures PageOf(objects, 1) == KidOf(objects, 2)
  {
    CatalogReadBack();
    RootFollows(objects, CATALOG);
  }

  lemma RootFollows(objects: seq<Object>, catalog: string)
    requires |objects| == 5 && objects[0] == Plain(catalog)
    requires At(catalog, 0, "<< /Type /Catalog ") && NumberUnder(catalog, "/Pages ", " 0 R") == Some(2)
    ensures PageOf(objects, 1) == KidOf(objects, 2)
  {
  }

  lemma PageIsPrinted(content: string)
    ensures Printed(Five(CATALOG, PAGES, PAGE, content, FONT), PAGE)
  {
    BoxReadBack();
    FontReadBack();
    FontWords();
  }

  lemma ContentFollows(content: string)
    ensures ContentOf(Five(CATALOG, PAGES, PAGE, content, FONT), PAGE) == Some(content)
  {
    ContentsReadBack();
  }

  lemma FollowedTo(objects: seq<Object>, root: nat, page: string, content: string)
    requires PageOf(objects, root) == Some(page) && Printed(objects, page) && ContentOf(objects, page) == Some(content)
    ensures Follow(objects, root) == TEXT.ReadContent(content)
  {
  }

  lemma ObjectsFollow(content: string)
    ensures Follow(Five(CATALOG, PAGES, PAGE, content, FONT), 1) == TEXT.ReadContent(content)
  {
    var objects := Five(CATALOG, PAGES, PAGE, content, FONT);
    CatalogFollows(objects);
    PagesFollow(objects);
    PageIsPrinted(content);
    ContentFollows(content);
    FollowedTo(objects, 1, PAGE, content);
  }

  /** From the catalogue to the text: every line in order. */
  lemma DocumentFollows(lines: seq<string>)
    ensures Follow(Document(lines), 1) == Some(AllAsRead(lines))
  {
    ObjectsFollow(TEXT_PAGE.Content(lines));
    SameWords();
    TextPageIsSane();
    TEXT_PAGE.ContentRoundTrip(lines);
  }

  lemma FileStarts(objects: seq<string>)
    ensures At(PDF.FileText(objects), 0, "%PDF-1.4\n")
  {
    PDF.BodyGrows(objects, 0, |objects|);
  }

  /**
   A reader that spells every word of the format itself gets all lines back, from the bytes of the file alone,
   exactly when the offsets fit the table; otherwise it gets nothing.
   */
  lemma ReaderRoundTrip(lines: seq<string>)
    ensures var objects := PDF.Texts(Document(lines));
            ReadInvoice(PDF.FileText(objects)) == if OffsetsFit(PDF, objects) then Some(AllAsRead(lines)) else None
  {
    var objects := PDF.Texts(Document(lines));
    PdfIsSane();
    SameWords();
    FileStarts(objects);
    PDF.OffsetsReadBack(objects);
    if OffsetsFit(PDF, objects) {
      InvoiceRoundTrip(lines);
      RootReadBack(objects);
      DocumentFollows(lines);
    }
  }
}
