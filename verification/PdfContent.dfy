/**
 The page content of an invoice: one shown string per line of text. The operator words are fields, so
 that the proofs rest only on what `Sane` says of them.
 */
module PdfContent {
  import opened Results
  import opened PdfLiteral

  /** The words the invoice writer uses around its strings. */
  const TEXT_PAGE := Operators("BT /F1 10 Tf 40 760 Td 14 TL\n", " Tj T*", "\nET")

  lemma TextPageIsSane()
    ensures TEXT_PAGE.Sane()
  {
  }

  predicate Ascii(s: string) {
    forall i :: 0 <= i < |s| ==> s[i] as int < 256
  }

  predicate StartsWith(s: string, w: string) {
    |w| <= |s| && s[..|w|] == w
  }

  function Join(parts: seq<string>): string {
    if parts == [] then "" else if |parts| == 1 then parts[0] else parts[0] + "\n" + Join(parts[1..])
  }

  function AllAsRead(lines: seq<string>): (texts: seq<string>)
    ensures |texts| == |lines| && forall i :: 0 <= i < |lines| ==> texts[i] == AsRead(lines[i])
  {
    seq(|lines|, i requires 0 <= i < |lines| => AsRead(lines[i]))
  }

  datatype Operators = Operators(begin: string, show: string, end: string) {
    predicate Sane() {
      Ascii(begin) && Ascii(show) && Ascii(end) && |end| > 1 && end[0] != '('
    }

    // -------------------------------------------------------------- the writer

    function Show(line: string): string {
      "(" + Escape(line) + ")" + show
    }

    function Shows(lines: seq<string>): (parts: seq<string>)
      ensures |parts| == |lines| && forall i :: 0 <= i < |lines| ==> parts[i] == Show(lines[i])
    {
      seq(|lines|, i requires 0 <= i < |lines| => Show(lines[i]))
    }

    function Content(lines: seq<string>): string {
      Encode(begin + Join(Shows(lines)) + end)
    }

    // -------------------------------------------------------------- the reader

    /** The strings shown by a sequence of show operators up to the closing word. */
    function ReadShows(s: string): Option<seq<string>>
      decreases |s|
    {
      if s == end then Some([]) else
      if s == "" || s[0] != '(' then None else
      match ReadLiteral(s[1..], 0)
      case None => None
      case Some((text, left)) => if StartsWith(left, show) && |left| < |s| then ReadMore(text, left[|show|..]) else None
    }

    /** What follows a shown string: the closing word, or a line feed and the next one. */
    function ReadMore(text: string, rest: string): Option<seq<string>>
      decreases |rest|
    {
      if rest == end then Some([text])
      else if rest == "" || rest[0] != '\n' then None
      else
        match ReadShows(rest[1..])
        case None => None
        case Some(texts) => Some([text] + texts)
    }

    function ReadContent(s: string): Option<seq<string>> {
      if StartsWith(s, begin) then ReadShows(s[|begin|..]) else None
    }

    // -------------------------------------------------------------- proofs

    lemma EncodeShow(line: string)
      requires Sane()
      ensures Encode(Show(line)) == "(" + Closed(line, show)
    {
      EncodeAscii("(");
      EncodeAscii(")");
      EncodeAscii(show);
      EncodeConcat("(" + Escape(line) + ")", show);
      EncodeConcat("(" + Escape(line), ")");
      EncodeConcat("(", Escape(line));
    }

    lemma ShowStep(s: string, text: string, rest: string)
      requires Sane() && s != "" && s[0] == '(' && |show + rest| < |s|
      requires ReadLiteral(s[1..], 0) == Some((text, show + rest))
      ensures ReadShows(s) == ReadMore(text, rest)
    {
      assert (show + rest)[|show|..] == rest;
    }

    /** One shown string is read as its line; what follows decides whether it was the last. */
    lemma ReadOneShow(line: string, rest: string)
      requires Sane()
      ensures ReadShows(Encode(Show(line)) + rest) == ReadMore(AsRead(line), rest)
    {
      var s := Encode(Show(line)) + rest;
      EncodeShow(line);
      ClosedMore(line, show, rest);
      assert s == "(" + Closed(line, show + rest);
      assert s[1..] == Closed(line, show + rest);
      LiteralReadBack(line, show + rest);
      ShowStep(s, AsRead(line), rest);
    }

    lemma {:induction false} ShowsReadBack(lines: seq<string>)
      requires Sane()
      ensures ReadShows(Encode(Join(Shows(lines))) + end) == Some(AllAsRead(lines))
      decreases |lines|
    {
      if |lines| <= 1 {
        FewShowsReadBack(lines);
      } else {
        var more := Encode(Join(Shows(lines[1..]))) + end;
        ShowsReadBack(lines[1..]);
        JoinFirst(lines);
        ReadOneShow(lines[0], "\n" + more);
        MoreToRead(AsRead(lines[0]), more);
        AllAsReadFirst(lines);
      }
    }

    lemma MoreToRead(text: string, more: string)
      requires |more| >= |end| && ReadShows(more).Some?
      ensures ReadMore(text, "\n" + more) == Some([text] + ReadShows(more).value)
    {
      assert ("\n" + more)[1..] == more;
      assert |"\n" + more| > |end|;
    }

    lemma FewShowsReadBack(lines: seq<string>)
      requires Sane() && |lines| <= 1
      ensures ReadShows(Encode(Join(Shows(lines))) + end) == Some(AllAsRead(lines))
    {
      if lines == [] {
        assert Encode("") + end == end;
      } else {
        ReadOneShow(lines[0], end);
        assert AllAsRead(lines) == [AsRead(lines[0])];
      }
    }

    lemma AllAsReadFirst(lines: seq<string>)
      requires lines != []
      ensures AllAsRead(lines) == [AsRead(lines[0])] + AllAsRead(lines[1..])
    {
    }

    lemma JoinFirst(lines: seq<string>)
      requires |lines| > 1
      ensures Encode(Join(Shows(lines))) + end == Encode(Show(lines[0])) + ("\n" + (Encode(Join(Shows(lines[1..]))) + end))
    {
      assert Shows(lines)[1..] == Shows(lines[1..]);
      EncodeJoined(Show(lines[0]), Join(Shows(lines[1..])));
    }

    lemma EncodeJoined(a: string, b: string)
      ensures Encode(a + "\n" + b) + end == Encode(a) + ("\n" + (Encode(b) + end))
    {
      EncodeConcat(a + "\n", b);
      EncodeConcat(a, "\n");
      EncodeAscii("\n");
    }

    /** Reading the content stream recovers every line, for any text at all. */
    lemma ContentRoundTrip(lines: seq<string>)
      requires Sane()
      ensures ReadContent(Content(lines)) == Some(AllAsRead(lines))
    {
      var body := Join(Shows(lines));
      EncodeConcat(begin + body, end);
      EncodeConcat(begin, body);
      EncodeAscii(begin);
      EncodeAscii(end);
      assert Content(lines) == begin + (Encode(body) + end);
      assert Content(lines)[|begin|..] == Encode(body) + end;
      ShowsReadBack(lines);
    }
  }
}
