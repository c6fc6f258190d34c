/**
 The file layer of the invoice writer: header, numbered objects, cross-reference table, trailer.
 The reader follows ISO 32000-1:2008, sections 7.3.8 (streams), 7.5.4 (cross-reference table) and
 7.5.5 (trailer), and uses no function of the writer: numbers are read by scanning digits. The fixed
 words of the format are fields, so that the proofs rest only on what `Sane` says of them.
 */
module PdfFile {
  import opened Results
  import opened Decimal
  import opened Scan

  /** An indirect object as the format sees it: a stream owns exactly `/Length` bytes, whatever they are. */
  datatype Object = Plain(body: string) | Stream(content: string)

  /** The words the invoice writer uses. */
  const PDF := Format(
    "%PDF-1.4\n", " 0 obj\n", "\nendobj\n",
    "<< /Length ", " >>\nstream\n", "\nendstream",
    "xref\n0 ", "\n0000000000 65535 f \n", " 00000 n \n",
    "trailer << /Size ", " /Root 1 0 R >>\n", "startxref\n", "\n%%EOF")

  /** 10^10: the first number that does not fit the ten digits of a table entry. */
  const TEN_DIGITS: nat := 10_000_000_000

  lemma PdfIsSane()
    ensures PDF.Sane()
  {
    assert PDF.endobj[0] == '\n' && PDF.inUse[0] == ' ';
    assert '\n' !in PDF.length;
  }

  /** A file must keep every object's offset within the ten digits of a table entry. */
  ghost predicate OffsetsFit(format: Format, objects: seq<string>) {
    objects != [] ==> |format.BodyTo(objects, |objects| - 1)| < TEN_DIGITS
  }

  datatype Format = Format(
    header: string, obj: string, endobj: string,
    length: string, stream: string, endstream: string,
    xref: string, free: string, inUse: string,
    size: string, root: string, startxref: string, eof: string)
  {
    predicate Sane() {
      && |inUse| == 10 && !IsDigit(inUse[0])
      && obj != "" && !IsDigit(obj[0])
      && free != "" && !IsDigit(free[0])
      && stream != "" && !IsDigit(stream[0])
      && startxref != "" && !IsDigit(startxref[|startxref| - 1])
      && endobj != "" && endobj[0] !in length
    }

    // -------------------------------------------------------------- the writer

    function Entry(number: nat, text: string): string {
      Digits(number) + obj + text + endobj
    }

    /** The file up to and including the first `k` objects. */
    function BodyTo(objects: seq<string>, k: nat): string
      requires k <= |objects|
    {
      if k == 0 then header else BodyTo(objects, k - 1) + Entry(k, objects[k - 1])
    }

    /** Where each object starts. */
    function Offsets(objects: seq<string>): (offsets: seq<nat>)
      ensures |offsets| == |objects|
      ensures forall i :: 0 <= i < |objects| ==> offsets[i] == |BodyTo(objects, i)|
    {
      seq(|objects|, i requires 0 <= i < |objects| => |BodyTo(objects, i)|)
    }

    function Row(offset: nat): string {
      Padded(offset, 10) + inUse
    }

    function RowsTo(objects: seq<string>, k: nat): string
      requires k <= |objects|
    {
      if k == 0 then "" else RowsTo(objects, k - 1) + Row(|BodyTo(objects, k - 1)|)
    }

    function Table(objects: seq<string>): string {
      xref + Digits(|objects| + 1) + free + RowsTo(objects, |objects|)
    }

    function Trailer(count: nat, xrefAt: nat): string {
      size + Digits(count) + root + startxref + Digits(xrefAt) + eof
    }

    function FileText(objects: seq<string>): string {
      var body := BodyTo(objects, |objects|);
      body + Table(objects) + Trailer(|objects| + 1, |body|)
    }

    function Text(o: Object): string {
      match o
      case Plain(body) => body
      case Stream(content) => length + Digits(|content|) + stream + content + endstream
    }

    function Texts(objects: seq<Object>): (texts: seq<string>)
      ensures |texts| == |objects| && forall i :: 0 <= i < |texts| ==> texts[i] == Text(objects[i])
    {
      seq(|objects|, i requires 0 <= i < |objects| => Text(objects[i]))
    }

    /** The writer's first pass: append the objects while noting where each starts. */
    method AppendObjects(objects: seq<string>) returns (output: string, offsets: seq<nat>)
      ensures output == BodyTo(objects, |objects|) && offsets == Offsets(objects)
    {
      output := header;
      offsets := [];
      for index := 0 to |objects|
        invariant output == BodyTo(objects, index)
        invariant offsets == Offsets(objects)[..index]
      {
        offsets := offsets + [|output|];
        output := Append4(output, Digits(index + 1), obj, objects[index], endobj);
      }
    }

    /** The table's rows, one per noted offset. */
    method AppendRows(objects: seq<string>, offsets: seq<nat>) returns (rows: string)
      requires offsets == Offsets(objects)
      ensures rows == RowsTo(objects, |objects|)
    {
      rows := "";
      for index := 0 to |objects|
        invariant rows == RowsTo(objects, index)
      {
        rows := rows + Row(offsets[index]);
      }
    }

    method Assemble(objects: seq<string>) returns (output: string)
      ensures output == FileText(objects)
    {
      var body, offsets := AppendObjects(objects);
      var rows := AppendRows(objects, offsets);
      output := body + (xref + Digits(|objects| + 1) + free + rows);
      output := output + Trailer(|objects| + 1, |body|);
    }

    static method Append4(s: string, a: string, b: string, c: string, d: string) returns (t: string)
      ensures t == s + (a + b + c + d)
    {
      t := s + a;
      t := t + b;
      t := t + c;
      t := t + d;
    }

    // -------------------------------------------------------------- the reader

    /** Works backwards from the end of the file, as a reader that has only the bytes must. */
    function ReadStartXref(f: string): Option<nat> {
      if |f| < |eof| || !At(f, |f| - |eof|, eof) then None else
      var end := |f| - |eof|;
      var start := ScanBack(f, end);
      if start == end || start < |startxref| || !At(f, start - |startxref|, startxref) then None
      else Some(Value(f[start..end]))
    }

    /** One cross-reference entry: exactly twenty bytes. */
    function ReadRow(f: string, p: nat): Option<nat> {
      if p + 20 <= |f| && AllDigits(f[p..p + 10]) && At(f, p + 10, inUse) then Some(Value(f[p..p + 10])) else None
    }

    function ReadRows(f: string, p: nat, count: nat): Option<seq<nat>>
      decreases count
    {
      if count == 0 then Some([]) else
      var row, rest := ReadRow(f, p), ReadRows(f, p + 20, count - 1);
      if row.None? || rest.None? then None else Some([row.value] + rest.value)
    }

    function ReadTable(f: string, xrefAt: nat): Option<seq<nat>> {
      if !At(f, xrefAt, xref) then None else
      match ReadNumber(f, xrefAt + |xref|)
      case None => None
      case Some((count, p)) =>
        if count == 0 || !At(f, p, free) then None else ReadRows(f, p + |free|, count - 1)
    }

    /** The offset of every object, found from the last bytes of the file. */
    function ReadOffsets(f: string): Option<seq<nat>> {
      match ReadStartXref(f)
      case None => None
      case Some(xrefAt) => ReadTable(f, xrefAt)
    }

    /** Where the text of object `number` starts, if that object begins at `offset`. */
    function ReadHead(f: string, offset: nat, number: nat): Option<nat> {
      match ReadNumber(f, offset)
      case None => None
      case Some((found, p)) => if found == number && At(f, p, obj) then Some(p + |obj|) else None
    }

    /** Reads object `number` at `offset` without being told where it ends. */
    function ReadIndirect(f: string, offset: nat, number: nat): Option<Object> {
      match ReadHead(f, offset, number)
      case None => None
      case Some(p) => ReadBody(f, p)
    }

    function ReadBody(f: string, p: nat): Option<Object> {
      if At(f, p, length) then ReadStream(f, p + |length|)
      else
        match Find(f, p, endobj)
        case None => None
        case Some(q) => Some(Plain(f[p..q]))
    }

    function ReadStream(f: string, p: nat): Option<Object> {
      match ReadNumber(f, p)
      case None => None
      case Some((count, q)) =>
        var start := q + |stream|;
        if At(f, q, stream) && At(f, start + count, endstream + endobj) then Some(Stream(f[start..start + count])) else None
    }

    function ReadAll(f: string, offsets: seq<nat>, number: nat): Option<seq<Object>> {
      if offsets == [] then Some([]) else
      var first, rest := ReadIndirect(f, offsets[0], number), ReadAll(f, offsets[1..], number + 1);
      if first.None? || rest.None? then None else Some([first.value] + rest.value)
    }

    function ReadFile(f: string): Option<seq<Object>> {
      match ReadOffsets(f)
      case None => None
      case Some(offsets) => ReadAll(f, offsets, 1)
    }

    /** The raw object texts, each delimited by the offset that follows its own. */
    function ReadTexts(f: string): Option<seq<string>> {
      match ReadStartXref(f)
      case None => None
      case Some(xrefAt) =>
        match ReadTable(f, xrefAt)
        case None => None
        case Some(offsets) => ReadExtents(f, offsets + [xrefAt], 1)
    }

    function ReadExtents(f: string, bounds: seq<nat>, number: nat): Option<seq<string>> {
      if |bounds| <= 1 then Some([]) else
      var start, end, rest := ReadHead(f, bounds[0], number), bounds[1] - |endobj|, ReadExtents(f, bounds[1..], number + 1);
      if rest.None? || start.None? || end < start.value || !At(f, end, endobj) then None
      else Some([f[start.value..end]] + rest.value)
    }

    // -------------------------------------------------------------- the table

    /** The bytes before the last three tokens decide nothing: `startxref` is found from the end. */
    lemma StartXrefFound(before: string, n: nat)
      requires Sane()
      ensures ReadStartXref(before + startxref + Digits(n) + eof) == Some(n)
    {
      var f := before + startxref + Digits(n) + eof;
      var start := |before| + |startxref|;
      AtMiddle(before, startxref, Digits(n) + eof);
      AtMiddle(before + startxref, Digits(n), eof);
      AtMiddle(before + startxref + Digits(n), eof, "");
      assert f == before + startxref + (Digits(n) + eof) == before + startxref + Digits(n) + eof + "";
      StartXrefAt(f, start, n);
    }

    lemma StartXrefAt(f: string, start: nat, n: nat)
      requires Sane() && |startxref| <= start && |f| == start + |Digits(n)| + |eof|
      requires At(f, start - |startxref|, startxref) && At(f, start, Digits(n)) && At(f, start + |Digits(n)|, eof)
      ensures ReadStartXref(f) == Some(n)
    {
      AtSlice(f, start, Digits(n));
      assert f[start - |startxref| + (|startxref| - 1)] == startxref[|startxref| - 1];
      ScanBackStops(f, start, start + |Digits(n)|);
      DigitsRoundTrip(n);
    }

    lemma StartXrefOfFile(objects: seq<string>)
      requires Sane()
      ensures ReadStartXref(FileText(objects)) == Some(|BodyTo(objects, |objects|)|)
    {
      var body := BodyTo(objects, |objects|);
      var front := size + Digits(|objects| + 1) + root;
      var before := body + Table(objects) + front;
      assert FileText(objects) == before + startxref + Digits(|body|) + eof;
      StartXrefFound(before, |body|);
    }

    /** ISO 32000-1:2008, 7.5.4: an entry is twenty bytes long - exactly while the offset has ten digits. */
    lemma RowIsTwentyBytes(offset: nat)
      requires Sane()
      ensures |Row(offset)| == 20 <==> offset < TEN_DIGITS
    {
      DigitsWidth(offset, 10);
      assert Pow10(10) == TEN_DIGITS;
    }

    lemma RowReadBack(f: string, p: nat, offset: nat)
      requires Sane() && At(f, p, Row(offset)) && offset < TEN_DIGITS
      ensures ReadRow(f, p) == Some(offset)
    {
      RowIsTwentyBytes(offset);
      AtSplit(f, p, Padded(offset, 10), inUse);
      AtSlice(f, p, Padded(offset, 10));
      PaddedRoundTrip(offset, 10);
    }

    lemma {:induction false} BodyGrows(objects: seq<string>, i: nat, k: nat)
      requires i <= k <= |objects|
      ensures BodyTo(objects, i) <= BodyTo(objects, k)
    {
      if i < k {
        BodyGrows(objects, i, k - 1);
      }
    }

    /** Every recorded offset is where that object's own header starts, whatever the objects contain. */
    lemma EntryAtOffset(objects: seq<string>, i: nat)
      requires i < |objects|
      ensures At(FileText(objects), Offsets(objects)[i], Entry(i + 1, objects[i]))
    {
      var body := BodyTo(objects, |objects|);
      EntryInBody(objects, i);
      assert FileText(objects) == body + (Table(objects) + Trailer(|objects| + 1, |body|));
      AtPrefix(body, FileText(objects), |BodyTo(objects, i)|, Entry(i + 1, objects[i]));
    }

    lemma EntryInBody(objects: seq<string>, i: nat)
      requires i < |objects|
      ensures At(BodyTo(objects, |objects|), |BodyTo(objects, i)|, Entry(i + 1, objects[i]))
    {
      AtEnd(BodyTo(objects, i), Entry(i + 1, objects[i]));
      BodyGrows(objects, i + 1, |objects|);
      AtPrefix(BodyTo(objects, i + 1), BodyTo(objects, |objects|), |BodyTo(objects, i)|, Entry(i + 1, objects[i]));
    }

    /** The first `k` objects start where ten digits can say. */
    ghost predicate FitsTo(objects: seq<string>, k: nat)
      requires k <= |objects|
    {
      forall i: nat :: i < k ==> |BodyTo(objects, i)| < TEN_DIGITS
    }

    lemma OffsetFits(objects: seq<string>)
      requires OffsetsFit(this, objects)
      ensures FitsTo(objects, |objects|)
    {
      forall i: nat | i < |objects| ensures |BodyTo(objects, i)| < TEN_DIGITS {
        BodyGrows(objects, i, |objects| - 1);
      }
    }

    lemma {:induction false} RowLengths(objects: seq<string>, k: nat)
      requires Sane() && k <= |objects| && FitsTo(objects, k)
      ensures |RowsTo(objects, k)| == 20 * k
    {
      if k > 0 {
        RowLengths(objects, k - 1);
        RowIsTwentyBytes(|BodyTo(objects, k - 1)|);
      }
    }

    lemma {:induction false} RowAt(objects: seq<string>, i: nat, k: nat)
      requires i < k <= |objects|
      ensures At(RowsTo(objects, k), |RowsTo(objects, i)|, Row(|BodyTo(objects, i)|))
      decreases k
    {
      var row := Row(|BodyTo(objects, i)|);
      if i == k - 1 {
        AtEnd(RowsTo(objects, i), row);
      } else {
        RowAt(objects, i, k - 1);
        AtPrefix(RowsTo(objects, k - 1), RowsTo(objects, k - 1) + Row(|BodyTo(objects, k - 1)|), |RowsTo(objects, i)|, row);
      }
    }

    lemma RowPosition(f: string, p: nat, objects: seq<string>, i: nat)
      requires i < |objects| && Sane() && FitsTo(objects, i) && At(f, p, RowsTo(objects, |objects|))
      ensures At(f, p + 20 * i, Row(|BodyTo(objects, i)|))
    {
      RowAt(objects, i, |objects|);
      RowLengths(objects, i);
      AtInside(f, p, RowsTo(objects, |objects|), 20 * i, Row(|BodyTo(objects, i)|));
    }

    lemma {:induction false} RowsReadBack(f: string, p: nat, offsets: seq<nat>)
      requires forall i: nat :: i < |offsets| ==> ReadRow(f, p + 20 * i) == Some(offsets[i])
      ensures ReadRows(f, p, |offsets|) == Some(offsets)
      decreases |offsets|
    {
      if offsets != [] {
        assert ReadRow(f, p + 20 * 0) == Some(offsets[0]);
        forall i: nat | i < |offsets[1..]| ensures ReadRow(f, p + 20 + 20 * i) == Some(offsets[1..][i]) {
          assert p + 20 + 20 * i == p + 20 * (i + 1);
        }
        RowsReadBack(f, p + 20, offsets[1..]);
        assert offsets == [offsets[0]] + offsets[1..];
      }
    }

    /** An eleventh digit stands where the entry's fixed part should begin. */
    lemma LongRowFails(f: string, p: nat, offset: nat)
      requires Sane() && At(f, p, Row(offset)) && offset >= TEN_DIGITS
      ensures ReadRow(f, p) == None
    {
      var digits := Padded(offset, 10);
      DigitsWidth(offset, 10);
      assert Pow10(10) == TEN_DIGITS;
      AtSplit(f, p, digits, inUse);
      AtFirst(f, p + 10, inUse);
      assert f[p + 10] == digits[10];
    }

    /** The first object that starts too far for ten digits. */
    ghost predicate FirstTooLong(objects: seq<string>, j: nat) {
      j < |objects| && FitsTo(objects, j) && |BodyTo(objects, j)| >= TEN_DIGITS
    }

    lemma {:induction false} SomeIsFirst(objects: seq<string>, k: nat)
      requires k < |objects| && |BodyTo(objects, k)| >= TEN_DIGITS
      ensures exists j: nat :: FirstTooLong(objects, j)
    {
      if k == 0 || |BodyTo(objects, k - 1)| < TEN_DIGITS {
        forall i: nat | i < k ensures |BodyTo(objects, i)| < TEN_DIGITS {
          BodyGrows(objects, i, k - 1);
        }
        assert FirstTooLong(objects, k);
      } else {
        SomeIsFirst(objects, k - 1);
      }
    }

    lemma {:induction false} RowsFail(f: string, p: nat, count: nat, j: nat)
      requires j < count && ReadRow(f, p + 20 * j) == None
      ensures ReadRows(f, p, count) == None
      decreases count
    {
      if j > 0 {
        assert p + 20 + 20 * (j - 1) == p + 20 * j;
        RowsFail(f, p + 20, count - 1, j - 1);
      }
    }

    /** The rows are read back exactly when all of them are short enough. */
    lemma AllRowsReadBack(f: string, p: nat, objects: seq<string>)
      requires Sane() && At(f, p, RowsTo(objects, |objects|))
      ensures ReadRows(f, p, |objects|) == if OffsetsFit(this, objects) then Some(Offsets(objects)) else None
    {
      if OffsetsFit(this, objects) {
        OffsetFits(objects);
        forall i: nat | i < |objects| ensures ReadRow(f, p + 20 * i) == Some(Offsets(objects)[i]) {
          RowPosition(f, p, objects, i);
          RowReadBack(f, p + 20 * i, |BodyTo(objects, i)|);
        }
        RowsReadBack(f, p, Offsets(objects));
      } else {
        SomeIsFirst(objects, |objects| - 1);
        var j: nat :| FirstTooLong(objects, j);
        RowPosition(f, p, objects, j);
        LongRowFails(f, p + 20 * j, |BodyTo(objects, j)|);
        RowsFail(f, p, |objects|, j);
      }
    }

    lemma TableOf(f: string, at: nat, count: nat)
      requires Sane() && At(f, at, xref) && At(f, at + |xref|, Digits(count + 1))
      requires At(f, at + |xref| + |Digits(count + 1)|, free)
      ensures ReadTable(f, at) == ReadRows(f, at + |xref| + |Digits(count + 1)| + |free|, count)
    {
      ReadNumberAt(f, at + |xref|, count + 1, free);
    }

    lemma TableParts(f: string, at: nat, objects: seq<string>)
      requires At(f, at, Table(objects))
      ensures var count := Digits(|objects| + 1);
              && At(f, at, xref) && At(f, at + |xref|, count) && At(f, at + |xref| + |count|, free)
              && At(f, at + |xref| + |count| + |free|, RowsTo(objects, |objects|))
    {
      var count := Digits(|objects| + 1);
      AtSplit(f, at, xref + count + free, RowsTo(objects, |objects|));
      AtSplit3(f, at, xref, count, free);
    }

    /** The table at this position is read from its rows at that one. */
    ghost predicate RowsAt(f: string, at: nat, objects: seq<string>, rows: nat) {
      ReadTable(f, at) == ReadRows(f, rows, |objects|) && At(f, rows, RowsTo(objects, |objects|))
    }

    lemma TableRows(f: string, at: nat, objects: seq<string>)
      requires Sane() && At(f, at, Table(objects))
      ensures exists rows: nat :: RowsAt(f, at, objects, rows)
    {
      TableParts(f, at, objects);
      TableOf(f, at, |objects|);
      assert RowsAt(f, at, objects, at + |xref| + |Digits(|objects| + 1)| + |free|);
    }

    lemma TableReadBack(f: string, at: nat, objects: seq<string>)
      requires Sane() && At(f, at, Table(objects))
      ensures ReadTable(f, at) == if OffsetsFit(this, objects) then Some(Offsets(objects)) else None
    {
      TableRows(f, at, objects);
      var rows: nat :| RowsAt(f, at, objects, rows);
      AllRowsReadBack(f, rows, objects);
    }

    /** Following `startxref` to the table yields the true offset of every object exactly when the offsets fit; otherwise nothing. */
    lemma OffsetsReadBack(objects: seq<string>)
      requires Sane()
      ensures ReadOffsets(FileText(objects)) == if OffsetsFit(this, objects) then Some(Offsets(objects)) else None
    {
      var body := BodyTo(objects, |objects|);
      StartXrefOfFile(objects);
      AtMiddle(body, Table(objects), Trailer(|objects| + 1, |body|));
      TableReadBack(FileText(objects), |body|, objects);
    }

    // -------------------------------------------------------------- the objects

    lemma HeadReadBack(f: string, offset: nat, number: nat)
      requires Sane() && At(f, offset, Digits(number) + obj)
      ensures ReadHead(f, offset, number) == Some(offset + |Digits(number) + obj|)
    {
      AtSplit(f, offset, Digits(number), obj);
      ReadNumberAt(f, offset, number, obj);
    }

    /** The head at this position is read up to that one, where the text lies with its end mark. */
    ghost predicate TextAt(f: string, offset: nat, number: nat, text: string, p: nat) {
      && ReadHead(f, offset, number) == Some(p) && At(f, p, text) && At(f, p + |text|, endobj)
      && p + |text| + |endobj| == offset + |Entry(number, text)|
    }

    lemma EntryReadBack(f: string, offset: nat, number: nat, text: string)
      requires Sane() && At(f, offset, Entry(number, text))
      ensures exists p: nat :: TextAt(f, offset, number, text, p)
    {
      AtSplit3(f, offset, Digits(number) + obj, text, endobj);
      HeadReadBack(f, offset, number);
      assert TextAt(f, offset, number, text, offset + |Digits(number) + obj|);
    }

    lemma ExtentReadBack(f: string, start: nat, end: nat, number: nat, text: string)
      requires Sane() && At(f, start, Entry(number, text)) && end == start + |Entry(number, text)|
      ensures var head := ReadHead(f, start, number);
              && head.Some? && head.value <= end - |endobj| && At(f, end - |endobj|, endobj)
              && f[head.value..end - |endobj|] == text
    {
      EntryReadBack(f, start, number, text);
      var p: nat :| TextAt(f, start, number, text, p);
      AtSlice(f, p, text);
    }

    /** Text `i` lies between its bounds. */
    ghost predicate Extends(f: string, bounds: seq<nat>, number: nat, objects: seq<string>, i: nat)
      requires i < |objects| && |bounds| == |objects| + 1
    {
      At(f, bounds[i], Entry(number + i, objects[i])) && bounds[i + 1] == bounds[i] + |Entry(number + i, objects[i])|
    }

    lemma ExtendsNext(f: string, bounds: seq<nat>, number: nat, objects: seq<string>, i: nat)
      requires i + 1 < |objects| && |bounds| == |objects| + 1 && Extends(f, bounds, number, objects, i + 1)
      ensures Extends(f, bounds[1..], number + 1, objects[1..], i)
    {
      assert number + 1 + i == number + (i + 1) && bounds[1..][i + 1] == bounds[i + 1 + 1];
    }

    lemma {:induction false} ExtentsReadBack(f: string, bounds: seq<nat>, number: nat, objects: seq<string>)
      requires Sane() && |bounds| == |objects| + 1
      requires forall i: nat :: i < |objects| ==> Extends(f, bounds, number, objects, i)
      ensures ReadExtents(f, bounds, number) == Some(objects)
      decreases |objects|
    {
      if objects != [] {
        var next := number + 1;
        forall i: nat | i < |objects[1..]| ensures Extends(f, bounds[1..], next, objects[1..], i) {
          ExtendsNext(f, bounds, number, objects, i);
        }
        ExtentsReadBack(f, bounds[1..], next, objects[1..]);
        ExtentsFirst(f, bounds, number, objects);
      }
    }

    lemma ExtentsFirst(f: string, bounds: seq<nat>, number: nat, objects: seq<string>)
      requires Sane() && |bounds| == |objects| + 1 && objects != [] && Extends(f, bounds, number, objects, 0)
      requires ReadExtents(f, bounds[1..], number + 1) == Some(objects[1..])
      ensures ReadExtents(f, bounds, number) == Some(objects)
    {
      ExtentReadBack(f, bounds[0], bounds[0 + 1], number, objects[0]);
      assert objects == [objects[0]] + objects[1..];
    }

    lemma BoundsStep(objects: seq<string>, i: nat)
      requires i < |objects|
      ensures var bounds := Offsets(objects) + [|BodyTo(objects, |objects|)|];
              bounds[i + 1] == bounds[i] + |Entry(1 + i, objects[i])|
    {
      var bounds := Offsets(objects) + [|BodyTo(objects, |objects|)|];
      assert bounds[i] == |BodyTo(objects, i)| && bounds[i + 1] == |BodyTo(objects, i + 1)|;
      assert BodyTo(objects, i + 1) == BodyTo(objects, i) + Entry(1 + i, objects[i]);
    }

    lemma FileExtents(f: string, bounds: seq<nat>, objects: seq<string>)
      requires Sane() && f == FileText(objects) && bounds == Offsets(objects) + [|BodyTo(objects, |objects|)|]
      ensures ReadExtents(f, bounds, 1) == Some(objects)
    {
      forall i: nat | i < |objects| ensures Extends(f, bounds, 1, objects, i) {
        EntryAtOffset(objects, i);
        BoundsStep(objects, i);
        assert bounds[i] == Offsets(objects)[i];
      }
      ExtentsReadBack(f, bounds, 1, objects);
    }

    lemma TextsOf(f: string, offsets: seq<nat>, xrefAt: nat, objects: seq<string>)
      requires ReadStartXref(f) == Some(xrefAt) && ReadTable(f, xrefAt) == Some(offsets)
      requires ReadExtents(f, offsets + [xrefAt], 1) == Some(objects)
      ensures ReadTexts(f) == Some(objects)
    {
    }

    /** Reading undoes writing for ANY object texts, exactly when their offsets fit the table. */
    lemma TextsRoundTrip(objects: seq<string>)
      requires Sane()
      ensures ReadTexts(FileText(objects)) == Some(objects) <==> OffsetsFit(this, objects)
    {
      var xrefAt := |BodyTo(objects, |objects|)|;
      StartXrefOfFile(objects);
      OffsetsReadBack(objects);
      if OffsetsFit(this, objects) {
        FileExtents(FileText(objects), Offsets(objects) + [xrefAt], objects);
        TextsOf(FileText(objects), Offsets(objects), xrefAt, objects);
      }
    }

    /** A body a reader can delimit by itself: it does not pose as a stream and hides no object end. */
    predicate Delimited(o: Object) {
      o.Plain? ==>
        && !At(o.body, 0, length)
        && forall q :: 0 <= q < |o.body| ==> !At(o.body + endobj, q, endobj)
    }

    /** A plain object is read back exactly when a reader can delimit it. */
    lemma PlainReadBack(f: string, offset: nat, number: nat, body: string)
      requires Sane() && At(f, offset, Entry(number, body))
      ensures ReadIndirect(f, offset, number) == Some(Plain(body)) <==> Delimited(Plain(body))
    {
      EntryReadBack(f, offset, number, body);
      var p: nat :| TextAt(f, offset, number, body, p);
      BodyReadBack(f, p, body);
    }

    lemma BodyReadBack(f: string, p: nat, body: string)
      requires Sane() && At(f, p, body) && At(f, p + |body|, endobj)
      ensures ReadBody(f, p) == Some(Plain(body)) <==> Delimited(Plain(body))
    {
      AtConcat(f, p, body, endobj);
      if At(f, p, length) {
        NotAStream(f, p, body);
      } else {
        assert !At(body, 0, length) by {
          if At(body, 0, length) {
            AtInside(f, p, body, 0, length);
          }
        }
        FindEnd(f, p, body);
      }
    }

    /** The first end mark is the object's own exactly when the body hides none. */
    lemma FindEnd(f: string, p: nat, body: string)
      requires At(f, p, body) && At(f, p + |body|, endobj) && At(f, p, body + endobj)
      ensures var end := Find(f, p, endobj);
              && end.Some? && p <= end.value <= p + |body|
              && (f[p..end.value] == body <==> forall q :: 0 <= q < |body| ==> !At(body + endobj, q, endobj))
    {
      FindsSoonest(f, p, p + |body|, endobj);
      AtSlice(f, p, body);
      var end := Find(f, p, endobj).value;
      if end < p + |body| {
        AtWithin(f, p, body + endobj, end, endobj);
        assert |f[p..end]| < |body|;
      } else {
        NothingHidden(f, p, body);
      }
    }

    lemma NothingHidden(f: string, p: nat, body: string)
      requires At(f, p, body + endobj) && Find(f, p, endobj) == Some(p + |body|)
      ensures forall q :: 0 <= q < |body| ==> !At(body + endobj, q, endobj)
    {
      forall q | 0 <= q < |body| ensures !At(body + endobj, q, endobj) {
        if At(body + endobj, q, endobj) {
          AtInside(f, p, body + endobj, q, endobj);
          FindsSoonest(f, p, p + q, endobj);
        }
      }
    }

    lemma NotAStream(f: string, p: nat, body: string)
      requires Sane() && At(f, p, body) && At(f, p + |body|, endobj) && At(f, p, length)
      ensures At(body, 0, length)
    {
      assert f[p + |body| + 0] == endobj[0];
      AtChar(f, p, length, p + |body|);
      AtWithin(f, p, body, p, length);
    }

    /** From its length on, a stream object and its end mark lie here. */
    ghost predicate StreamLies(f: string, q: nat, content: string) {
      var start := q + |Digits(|content|)| + |stream|;
      && At(f, q, Digits(|content|)) && At(f, q + |Digits(|content|)|, stream)
      && At(f, start, content) && At(f, start + |content|, endstream + endobj)
    }

    lemma StreamParts(f: string, p: nat, content: string)
      requires At(f, p, Text(Stream(content)))
      ensures At(f, p, length) && At(f, p + |length|, Digits(|content|))
      ensures var start := p + |length| + |Digits(|content|)| + |stream|;
              At(f, start - |stream|, stream) && At(f, start, content) && At(f, start + |content|, endstream)
    {
      AtSplit3(f, p, length + Digits(|content|) + stream, content, endstream);
      AtSplit3(f, p, length, Digits(|content|), stream);
    }

    lemma StreamAt(f: string, p: nat, content: string)
      requires At(f, p, Text(Stream(content))) && At(f, p + |Text(Stream(content))|, endobj)
      ensures At(f, p, length) && StreamLies(f, p + |length|, content)
    {
      var end := p + |length| + |Digits(|content|)| + |stream| + |content|;
      StreamParts(f, p, content);
      assert end + |endstream| == p + |Text(Stream(content))|;
      AtConcat(f, end, endstream, endobj);
    }

    /** `/Length` equals the byte count, so a stream comes back whole whatever bytes it holds. */
    lemma StreamReadBack(f: string, offset: nat, number: nat, content: string)
      requires Sane() && At(f, offset, Entry(number, Text(Stream(content))))
      ensures ReadIndirect(f, offset, number) == Some(Stream(content))
    {
      EntryReadBack(f, offset, number, Text(Stream(content)));
      var p: nat :| TextAt(f, offset, number, Text(Stream(content)), p);
      StreamBody(f, p, content);
    }

    lemma StreamBody(f: string, p: nat, content: string)
      requires Sane() && At(f, p, Text(Stream(content))) && At(f, p + |Text(Stream(content))|, endobj)
      ensures ReadBody(f, p) == Some(Stream(content))
    {
      StreamAt(f, p, content);
      ContentReadBack(f, p + |length|, content);
    }

    lemma ContentReadBack(f: string, p: nat, content: string)
      requires Sane() && StreamLies(f, p, content)
      ensures ReadStream(f, p) == Some(Stream(content))
    {
      ReadNumberAt(f, p, |content|, stream);
      AtSlice(f, p + |Digits(|content|)| + |stream|, content);
    }

    lemma ObjectReadBack(objects: seq<Object>, i: nat)
      requires i < |objects| && Sane()
      ensures ReadIndirect(FileText(Texts(objects)), Offsets(Texts(objects))[i], 1 + i) == Some(objects[i]) <==> Delimited(objects[i])
    {
      EntryAtOffset(Texts(objects), i);
      if objects[i].Plain? {
        PlainReadBack(FileText(Texts(objects)), Offsets(Texts(objects))[i], i + 1, objects[i].body);
      } else {
        StreamReadBack(FileText(Texts(objects)), Offsets(Texts(objects))[i], i + 1, objects[i].content);
      }
    }

    /** Object `i` is found at its offset. */
    ghost predicate Found(f: string, offsets: seq<nat>, number: nat, objects: seq<Object>, i: nat)
      requires i < |offsets| == |objects|
    {
      ReadIndirect(f, offsets[i], number + i) == Some(objects[i])
    }

    lemma {:induction false} AllReadBack(f: string, offsets: seq<nat>, number: nat, objects: seq<Object>)
      requires |offsets| == |objects|
      ensures ReadAll(f, offsets, number) == Some(objects)
              <==> forall i: nat :: i < |objects| ==> Found(f, offsets, number, objects, i)
      decreases |objects|
    {
      if objects != [] {
        AllReadBack(f, offsets[1..], number + 1, objects[1..]);
        FoundFirst(f, offsets, number, objects);
        ReadFirst(f, offsets, number, objects);
      }
    }

    lemma ReadFirst(f: string, offsets: seq<nat>, number: nat, objects: seq<Object>)
      requires |offsets| == |objects| && objects != []
      ensures ReadAll(f, offsets, number) == Some(objects)
              <==> Found(f, offsets, number, objects, 0) && ReadAll(f, offsets[1..], number + 1) == Some(objects[1..])
    {
      var rest := ReadAll(f, offsets[1..], number + 1);
      assert objects == [objects[0]] + objects[1..];
      if ReadAll(f, offsets, number) == Some(objects) {
        assert ([ReadIndirect(f, offsets[0], number).value] + rest.value)[1..] == rest.value;
      }
    }

    lemma FoundFirst(f: string, offsets: seq<nat>, number: nat, objects: seq<Object>)
      requires |offsets| == |objects| && objects != []
      ensures var next := number + 1;
              (forall i: nat :: i < |objects| ==> Found(f, offsets, number, objects, i))
              <==> Found(f, offsets, number, objects, 0)
                   && forall i: nat :: i < |objects[1..]| ==> Found(f, offsets[1..], next, objects[1..], i)
    {
      var next := number + 1;
      forall i: nat | i < |objects[1..]|
        ensures Found(f, offsets[1..], next, objects[1..], i) <==> Found(f, offsets, number, objects, i + 1)
      {
        FoundNext(f, offsets, number, objects, i);
      }
      if Found(f, offsets, number, objects, 0) && forall i: nat :: i < |objects[1..]| ==> Found(f, offsets[1..], next, objects[1..], i) {
        forall i: nat | i < |objects| ensures Found(f, offsets, number, objects, i) {
          if i > 0 {
            assert Found(f, offsets[1..], next, objects[1..], i - 1);
            FoundNext(f, offsets, number, objects, i - 1);
          }
        }
      }
    }

    lemma FoundNext(f: string, offsets: seq<nat>, number: nat, objects: seq<Object>, i: nat)
      requires i + 1 < |offsets| == |objects|
      ensures Found(f, offsets[1..], number + 1, objects[1..], i) <==> Found(f, offsets, number, objects, i + 1)
    {
      assert number + 1 + i == number + (i + 1);
    }

    lemma AllFound(objects: seq<Object>, f: string, offsets: seq<nat>)
      requires Sane() && f == FileText(Texts(objects)) && offsets == Offsets(Texts(objects))
      ensures ReadAll(f, offsets, 1) == Some(objects) <==> AllDelimited(objects)
    {
      forall i: nat | i < |objects| ensures Found(f, offsets, 1, objects, i) <==> Delimited(objects[i]) {
        ObjectReadBack(objects, i);
      }
      AllReadBack(f, offsets, 1, objects);
    }

    ghost predicate AllDelimited(objects: seq<Object>) {
      forall i :: 0 <= i < |objects| ==> Delimited(objects[i])
    }

    /**
     Reading undoes writing exactly when the offsets fit and every plain object can be delimited. Streams are
     delimited by `/Length` alone: a stream may contain `endobj`, `xref` or any other bytes.
     */
    lemma FileRoundTrip(objects: seq<Object>)
      requires Sane()
      ensures ReadFile(FileText(Texts(objects))) == Some(objects) <==> OffsetsFit(this, Texts(objects)) && AllDelimited(objects)
    {
      OffsetsReadBack(Texts(objects));
      AllFound(objects, FileText(Texts(objects)), Offsets(Texts(objects)));
    }
  }
}
