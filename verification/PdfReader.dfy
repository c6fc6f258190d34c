/**
 A reader of the invoice document that spells every word itself, as ISO 32000-1:2008 does: the file layer of
 section 7.5, the document structure of section 7.7 and the text operators of section 9.4. From the last bytes
 of the file it finds the table and the trailer, follows the catalogue to its page, and reads the page's text.
 */
module PdfReader {
  import opened Results
  import opened Decimal
  import opened Scan
  import opened PdfFile
  import opened PdfContent

  /** Header, objects, streams, cross-reference table and trailer: sections 7.5.2, 7.3.10, 7.3.8, 7.5.4 and 7.5.5. */
  const ISO := Format(
    "%PDF-1.4\n", " 0 obj\n", "\nendobj\n",
    "<< /Length ", " >>\nstream\n", "\nendstream",
    "xref\n0 ", "\n0000000000 65535 f \n", " 00000 n \n",
    "trailer << /Size ", " /Root 1 0 R >>\n", "startxref\n", "\n%%EOF")

  /** One text object: font, place and leading first, then a string and a line feed per line. */
  const TEXT := Operators("BT /F1 10 Tf 40 760 Td 14 TL\n", " Tj T*", "\nET")

  /** A row counts only when its eighteenth byte says that the object is in use. */
  lemma RowIsInUse(f: string, p: nat)
    requires ISO.ReadRow(f, p).Some?
    ensures p + 20 <= |f| && f[p + 17] == 'n'
  {
    assert f[p + 10 + 7] == ISO.inUse[7];
  }

  // ---------------------------------------------------------------- the trailer

  /** Where the trailer begins and how many rows it must speak of. */
  function FindTrailer(f: string): Option<(nat, nat)> {
    match ISO.ReadStartXref(f)
    case None => None
    case Some(xrefAt) => BehindTable(f, xrefAt)
  }

  /** The table is its word, the number of rows, the free row and twenty bytes for every other row. */
  function BehindTable(f: string, xrefAt: nat): Option<(nat, nat)> {
    match ReadNumber(f, xrefAt + 7)
    case None => None
    case Some((count, p)) => if count == 0 then None else Some((p + 21 + 20 * (count - 1), count))
  }

  /** The object number of the catalogue. */
  function ReadRoot(f: string): Option<nat> {
    match FindTrailer(f)
    case None => None
    case Some((p, count)) => ReadTrailer(f, p, count)
  }

  function ReadTrailer(f: string, p: nat, count: nat): Option<nat> {
    if !At(f, p, "trailer << /Size ") then None else
    match ReadNumber(f, p + 17)
    case None => None
    case Some((size, q)) =>
      if size != count || !At(f, q, " /Root ") then None else
      match ReadNumber(f, q + 7)
      case None => None
      case Some((root, r)) => if At(f, r, " 0 R >>\nstartxref\n") then Some(root) else None
  }

  // ---------------------------------------------------------------- the document structure

  /** The number under a key, with what must follow it. */
  function NumberUnder(body: string, key: string, next: string): Option<nat> {
    match Find(body, 0, key)
    case None => None
    case Some(p) =>
      match ReadNumber(body, p + |key|)
      case None => None
      case Some((n, q)) => if At(body, q, next) then Some(n) else None
  }

  /** The dictionary of object `n`, if it is of this type. */
  function Typed(objects: seq<Object>, n: nat, start: string): Option<string> {
    if 1 <= n <= |objects| && objects[n - 1].Plain? && At(objects[n - 1].body, 0, start) then Some(objects[n - 1].body) else None
  }

  /** The one page of the catalogue: `/Root` to `/Pages` to the only one of `/Kids`. */
  function PageOf(objects: seq<Object>, root: nat): Option<string> {
    match Typed(objects, root, "<< /Type /Catalog ")
    case None => None
    case Some(catalog) =>
      match NumberUnder(catalog, "/Pages ", " 0 R")
      case None => None
      case Some(pages) => KidOf(objects, pages)
  }

  function KidOf(objects: seq<Object>, n: nat): Option<string> {
    match Typed(objects, n, "<< /Type /Pages ")
    case None => None
    case Some(pages) =>
      if NumberUnder(pages, "/Count ", " >>") != Some(1) then None else
      match NumberUnder(pages, "/Kids [", " 0 R]")
      case None => None
      case Some(kid) => Typed(objects, kid, "<< /Type /Page /Parent 2 0 R ")
  }

  /** A page of letter size whose font, as its text names it, is the built-in one of fixed width. */
  predicate Printed(objects: seq<Object>, page: string) {
    && NumberUnder(page, "/MediaBox [0 0 612 ", "] ") == Some(792)
    && match NumberUnder(page, "/Font << /F1 ", " 0 R >> >> ")
       case None => false
       case Some(n) =>
         var font := Typed(objects, n, "<< /Type /Font /Subtype ");
         font.Some? && At(font.value, 24, "/Type1 /BaseFont /Courier >>")
  }

  function ContentOf(objects: seq<Object>, page: string): Option<string> {
    match NumberUnder(page, "/Contents ", " 0 R >>")
    case None => None
    case Some(n) => if 1 <= n <= |objects| && objects[n - 1].Stream? then Some(objects[n - 1].content) else None
  }

  function Follow(objects: seq<Object>, root: nat): Option<seq<string>> {
    match PageOf(objects, root)
    case None => None
    case Some(page) =>
      if !Printed(objects, page) then None else
      match ContentOf(objects, page)
      case None => None
      case Some(content) => TEXT.ReadContent(content)
  }

  /** The lines of text the document shows. */
  function ReadInvoice(f: string): Option<seq<string>> {
    if !At(f, 0, "%PDF-1.4\n") then None else
    match ISO.ReadFile(f)
    case None => None
    case Some(objects) =>
      match ReadRoot(f)
      case None => None
      case Some(root) => Follow(objects, root)
  }

  // ---------------------------------------------------------------- proofs

  /** No name that starts with `c` begins here, and none is cut off at the end. */
  predicate NoName(a: string, c: char) {
    forall i :: 0 <= i < |a| && a[i] == '/' ==> i + 1 < |a| && a[i + 1] != c
  }

  lemma NoNameConcat(a: string, b: string, c: char)
    requires NoName(a, c) && NoName(b, c)
    ensures NoName(a + b, c)
  {
  }

  lemma AtTwo(f: string, p: nat, w: string)
    requires |w| > 1
    ensures At(f, p, w) ==> p + 1 < |f| && f[p] == w[0] && f[p + 1] == w[1]
  {
    assert At(f, p, w) ==> f[p + 0] == w[0] && f[p + 1] == w[1];
  }

  lemma NotSooner(body: string, before: string, p: nat, key: string)
    requires |key| > 1 && key[0] == '/' && before <= body && NoName(before, key[1]) && p < |before|
    ensures !At(body, p, key)
  {
    assert body[p] == before[p] && (p + 1 < |before| ==> body[p + 1] == before[p + 1]);
    AtTwo(body, p, key);
  }

  lemma FindPast(body: string, before: string, key: string)
    requires |key| > 1 && key[0] == '/' && before <= body && NoName(before, key[1]) && At(body, |before|, key)
    ensures Find(body, 0, key) == Some(|before|)
  {
    FindsSoonest(body, 0, |before|, key);
    var p := Find(body, 0, key).value;
    if p < |before| {
      NotSooner(body, before, p, key);
    }
  }

  /** A number is found under its key when no earlier name starts like it. */
  lemma NumberFound(body: string, before: string, key: string, n: nat, next: string, after: string)
    requires body == before + key + Digits(n) + next + after
    requires |key| > 1 && key[0] == '/' && NoName(before, key[1]) && next != "" && !IsDigit(next[0])
    ensures NumberUnder(body, key, next) == Some(n)
  {
    AtMiddle(before, key, Digits(n) + next + after);
    AtMiddle(before + key, Digits(n), next + after);
    AtMiddle(before + key + Digits(n), next, after);
    assert body == before + key + (Digits(n) + next + after) == before + key + Digits(n) + (next + after);
    NumberAt(body, before, key, n, next);
  }

  lemma NumberAt(body: string, before: string, key: string, n: nat, next: string)
    requires |key| > 1 && key[0] == '/' && before <= body && NoName(before, key[1]) && next != "" && !IsDigit(next[0])
    requires At(body, |before|, key) && At(body, |before| + |key|, Digits(n)) && At(body, |before| + |key| + |Digits(n)|, next)
    ensures NumberUnder(body, key, next) == Some(n)
  {
    FindPast(body, before, key);
    ReadNumberAt(body, |before| + |key|, n, next);
  }

  /** The writer's words are the reader's. */
  lemma SameWords()
    ensures PDF == ISO && TEXT_PAGE == TEXT
  {
  }

  /** How far the table reaches when its rows are twenty bytes long. */
  lemma TableLength(format: Format, objects: seq<string>)
    requires OffsetsFit(format, objects) && format.Sane() && |format.xref| == 7 && |format.free| == 21
    ensures |format.Table(objects)| == 7 + |Digits(|objects| + 1)| + 21 + 20 * |objects|
  {
    format.OffsetFits(objects);
    format.RowLengths(objects, |objects|);
  }

  lemma AtSplit5(f: string, p: nat, a: string, b: string, c: string, d: string, e: string, rest: string)
    requires At(f, p, a + b + (c + d + e) + rest)
    ensures At(f, p, a) && At(f, p + |a|, b) && At(f, p + |a| + |b|, c) && At(f, p + |a| + |b| + |c|, d)
    ensures At(f, p + |a| + |b| + |c| + |d|, e)
  {
    AtSplit(f, p, a + b + (c + d + e), rest);
    AtSplit3(f, p, a, b, c + d + e);
    AtSplit3(f, p + |a| + |b|, c, d, e);
  }

  lemma TrailerWords(count: nat, xrefAt: nat)
    ensures ISO.Trailer(count, xrefAt)
        == "trailer << /Size " + Digits(count) + (" /Root " + Digits(1) + " 0 R >>\nstartxref\n") + (Digits(xrefAt) + "\n%%EOF")
  {
    RootWords();
    Regroup("trailer << /Size ", Digits(count), ISO.root, ISO.startxref, Digits(xrefAt), "\n%%EOF");
  }

  lemma Regroup(a: string, b: string, c: string, d: string, e: string, g: string)
    ensures a + b + c + d + e + g == a + b + (c + d) + (e + g)
  {
  }

  lemma RootWords()
    ensures ISO.root + ISO.startxref == " /Root " + Digits(1) + " 0 R >>\nstartxref\n"
  {
  }

  lemma TrailerReadBack(f: string, p: nat, count: nat, xrefAt: nat)
    requires At(f, p, ISO.Trailer(count, xrefAt))
    ensures ReadTrailer(f, p, count) == Some(1)
  {
    TrailerWords(count, xrefAt);
    AtSplit5(f, p, "trailer << /Size ", Digits(count), " /Root ", Digits(1), " 0 R >>\nstartxref\n", Digits(xrefAt) + "\n%%EOF");
    ReadNumberAt(f, p + 17, count, " /Root ");
    ReadNumberAt(f, p + 17 + |Digits(count)| + 7, 1, " 0 R >>\nstartxref\n");
  }

  /** The trailer begins behind the table. */
  lemma TableReadBack(format: Format, f: string, at: nat, objects: seq<string>)
    requires OffsetsFit(format, objects) && format.Sane() && |format.xref| == 7 && |format.free| == 21
    requires At(f, at, format.Table(objects))
    ensures BehindTable(f, at) == Some((at + |format.Table(objects)|, |objects| + 1))
  {
    format.TableParts(f, at, objects);
    TableLength(format, objects);
    ReadNumberAt(f, at + 7, |objects| + 1, format.free);
  }

  /** The table begins at `at` and the trailer at `p`. */
  ghost predicate Laid(format: Format, f: string, at: nat, p: nat, count: nat) {
    && format.ReadStartXref(f) == Some(at) && BehindTable(f, at) == Some((p, count))
    && At(f, p, format.Trailer(count, at))
  }

  lemma LaidAt(format: Format, f: string, at: nat, objects: seq<string>)
    requires OffsetsFit(format, objects) && format.Sane() && |format.xref| == 7 && |format.free| == 21
    requires format.ReadStartXref(f) == Some(at)
    requires At(f, at, format.Table(objects)) && At(f, at + |format.Table(objects)|, format.Trailer(|objects| + 1, at))
    ensures Laid(format, f, at, at + |format.Table(objects)|, |objects| + 1)
  {
    TableReadBack(format, f, at, objects);
  }

  lemma FileIsLaid(format: Format, objects: seq<string>)
    requires OffsetsFit(format, objects) && format.Sane() && |format.xref| == 7 && |format.free| == 21
    ensures exists at: nat, p: nat, count: nat :: Laid(format, format.FileText(objects), at, p, count)
  {
    format.StartXrefOfFile(objects);
    FileParts(format, objects);
    LaidAt(format, format.FileText(objects), |format.BodyTo(objects, |objects|)|, objects);
  }

  lemma RootOfLaid(f: string, at: nat, p: nat, count: nat)
    requires Laid(ISO, f, at, p, count)
    ensures ReadRoot(f) == Some(1)
  {
    TrailerReadBack(f, p, count, at);
  }

  /** The trailer names the first object as the catalogue. */
  lemma RootReadBack(objects: seq<string>)
    requires OffsetsFit(ISO, objects) && ISO.Sane()
    ensures ReadRoot(ISO.FileText(objects)) == Some(1)
  {
    FileIsLaid(ISO, objects);
    var at: nat, p: nat, count: nat :| Laid(ISO, ISO.FileText(objects), at, p, count);
    RootOfLaid(ISO.FileText(objects), at, p, count);
  }

  /** The file is its objects, the table and the trailer. */
  lemma FileParts(format: Format, objects: seq<string>)
    ensures var f, at := format.FileText(objects), |format.BodyTo(objects, |objects|)|;
            At(f, at, format.Table(objects)) && At(f, at + |format.Table(objects)|, format.Trailer(|objects| + 1, at))
  {
    var body := format.BodyTo(objects, |objects|);
    AtMiddle(body, format.Table(objects), format.Trailer(|objects| + 1, |body|));
    AtEnd(body + format.Table(objects), format.Trailer(|objects| + 1, |body|));
  }
}
