/**
 Literal strings of a page's text: how the invoice writer escapes a line, and how a reader of
 ISO 32000-1:2008, section 7.3.4.2, takes it back. The two are independent: the reader knows balanced
 parentheses, every escape and the end-of-line rule; the writer only doubles backslashes and replaces
 parentheses.
 */
module PdfLiteral {
  import opened Results

  // ---------------------------------------------------------------- the writer

  function EscapeChar(c: char): string {
    if c == '\\' then "\\\\" else if c == '(' then "[" else if c == ')' then "]" else [c]
  }

  /** Backslashes doubled, parentheses replaced by brackets. */
  function Escape(line: string): string {
    if line == "" then "" else EscapeChar(line[0]) + Escape(line[1..])
  }

  function ByteOf(c: char): char {
    if c as int < 256 then c else '?'
  }

  /** Encoding to latin-1, with a question mark for what it cannot hold. */
  function Encode(s: string): (bytes: string)
    ensures |bytes| == |s| && forall i :: 0 <= i < |s| ==> bytes[i] == ByteOf(s[i])
  {
    seq(|s|, i requires 0 <= i < |s| => ByteOf(s[i]))
  }

  // ---------------------------------------------------------------- the reader

  predicate IsOctal(c: char) {
    '0' <= c <= '7'
  }

  function OctalRun(s: string): (n: nat)
    ensures n <= 3 && n <= |s|
  {
    if |s| > 0 && IsOctal(s[0]) then
      if |s| > 1 && IsOctal(s[1]) then
        if |s| > 2 && IsOctal(s[2]) then 3 else 2
      else 1
    else 0
  }

  function OctalValue(s: string): nat
    requires forall i :: 0 <= i < |s| ==> IsOctal(s[i])
  {
    if s == "" then 0 else
    assert IsOctal(s[|s| - 1]);
    8 * OctalValue(s[..|s| - 1]) + (s[|s| - 1] as int - '0' as int)
  }

  /** What follows a backslash: the characters it stands for and how much input it uses. */
  function Unescape(s: string): (r: (string, nat))
    requires s != ""
    ensures 1 <= r.1 <= |s|
  {
    var c := s[0];
    if c == 'n' then ("\n", 1)
    else if c == 'r' then ("\r", 1)
    else if c == 't' then ("\t", 1)
    else if c == 'b' then ([8 as char], 1)
    else if c == 'f' then ([12 as char], 1)
    else if IsOctal(c) then
      var k := OctalRun(s);
      assert forall i :: 0 <= i < k ==> IsOctal(s[..k][i]);
      ([(OctalValue(s[..k]) % 256) as char], k)
    else if c == '\r' && |s| > 1 && s[1] == '\n' then ("", 2)
    else if c == '\r' || c == '\n' then ("", 1)
    else ([c], 1)
  }

  /** The string read and the input left after its closing parenthesis; `depth` counts open nested ones. */
  function ReadLiteral(s: string, depth: nat): Option<(string, string)>
    decreases |s|
  {
    if s == "" then None
    else if s[0] == ')' && depth == 0 then Some(("", s[1..]))
    else if s[0] == ')' then Prepend(")", ReadLiteral(s[1..], depth - 1))
    else if s[0] == '(' then Prepend("(", ReadLiteral(s[1..], depth + 1))
    else if s[0] == '\\' then
      if |s| == 1 then None else
      var (text, used) := Unescape(s[1..]);
      Prepend(text, ReadLiteral(s[1 + used..], depth))
    else if s[0] == '\r' && |s| > 1 && s[1] == '\n' then Prepend("\n", ReadLiteral(s[2..], depth))
    else if s[0] == '\r' then Prepend("\n", ReadLiteral(s[1..], depth))
    else Prepend([s[0]], ReadLiteral(s[1..], depth))
  }

  function Prepend(text: string, r: Option<(string, string)>): Option<(string, string)> {
    match r
    case None => None
    case Some((rest, left)) => Some((text + rest, left))
  }

  // ---------------------------------------------------------------- what comes back

  function BracketChar(c: char): char {
    if c == '(' then '[' else if c == ')' then ']' else c
  }

  /** Parentheses turned into brackets, the one change the writer intends. */
  function Brackets(line: string): string {
    if line == "" then "" else [BracketChar(line[0])] + Brackets(line[1..])
  }

  /** A line as any conforming reader sees it: brackets, latin-1, and every end of line as one LF. */
  function AsRead(line: string): string {
    if line == "" then ""
    else if line[0] == '\r' && |line| > 1 && line[1] == '\n' then "\n" + AsRead(line[2..])
    else if line[0] == '\r' then "\n" + AsRead(line[1..])
    else [BracketChar(ByteOf(line[0]))] + AsRead(line[1..])
  }

  lemma EncodeConcat(a: string, b: string)
    ensures Encode(a + b) == Encode(a) + Encode(b)
  {
  }

  lemma EncodeAscii(s: string)
    requires forall i :: 0 <= i < |s| ==> s[i] as int < 256
    ensures Encode(s) == s
  {
  }

  lemma EncodeEscape(line: string)
    requires line != ""
    ensures Encode(Escape(line)) == EscapeChar(ByteOf(line[0])) + Encode(Escape(line[1..]))
  {
    EncodeConcat(EscapeChar(line[0]), Escape(line[1..]));
    assert Encode(EscapeChar(line[0])) == EscapeChar(ByteOf(line[0]));
  }

  lemma ReadBackslashes(s: string)
    ensures ReadLiteral("\\\\" + s, 0) == Prepend("\\", ReadLiteral(s, 0))
  {
    var t := "\\\\" + s;
    assert t[1..] == "\\" + s && t[2..] == s;
    assert Unescape("\\" + s) == ("\\", 1);
  }

  /** What one escaped character is read as, unless it is half of a CR LF. */
  lemma ReadEscaped(c: char, s: string)
    requires c == '\r' ==> s == "" || s[0] != '\n'
    ensures ReadLiteral(EscapeChar(c) + s, 0) == Prepend([if c == '\r' then '\n' else BracketChar(c)], ReadLiteral(s, 0))
  {
    if c == '\\' {
      ReadBackslashes(s);
    } else {
      assert (EscapeChar(c) + s)[1..] == s;
    }
  }

  lemma ReadReturnLineFeed(s: string)
    ensures ReadLiteral("\r\n" + s, 0) == Prepend("\n", ReadLiteral(s, 0))
  {
    assert ("\r\n" + s)[2..] == s;
  }

  /** An escaped line with its closing parenthesis and what follows. */
  function Closed(line: string, rest: string): string {
    Encode(Escape(line)) + ")" + rest
  }

  lemma ClosedMore(line: string, a: string, b: string)
    ensures Closed(line, a) + b == Closed(line, a + b)
  {
  }

  lemma ClosedFirst(line: string, rest: string)
    requires line != ""
    ensures Closed(line, rest) == EscapeChar(ByteOf(line[0])) + Closed(line[1..], rest)
  {
    EncodeEscape(line);
  }

  lemma ClosedFirstTwo(line: string, rest: string)
    requires |line| > 1 && line[0] == '\r' && line[1] == '\n'
    ensures Closed(line, rest) == "\r\n" + Closed(line[2..], rest)
  {
    ClosedFirst(line, rest);
    ClosedFirst(line[1..], rest);
    assert line[1..][1..] == line[2..];
  }

  /** One escaped line, read under the literal-string rules, ends at its own closing parenthesis. */
  lemma {:induction false} LiteralReadBack(line: string, rest: string)
    ensures ReadLiteral(Closed(line, rest), 0) == Some((AsRead(line), rest))
    decreases |line|
  {
    if line == "" {
      assert Closed(line, rest)[1..] == rest;
    } else if line[0] == '\r' && |line| > 1 && line[1] == '\n' {
      LiteralReadBack(line[2..], rest);
      ClosedFirstTwo(line, rest);
      ReadReturnLineFeed(Closed(line[2..], rest));
    } else {
      LiteralReadBack(line[1..], rest);
      ClosedFirst(line, rest);
      if line[0] == '\r' {
        NoLineFeed(line[1..], rest);
      }
      ReadEscaped(ByteOf(line[0]), Closed(line[1..], rest));
    }
  }

  lemma NoLineFeed(line: string, rest: string)
    requires line == "" || line[0] != '\n'
    ensures Closed(line, rest)[0] != '\n'
  {
    if line != "" {
      EncodeEscape(line);
    }
  }

  /** Nothing outside latin-1 and no CR survives reading. */
  lemma {:induction false} AsReadRange(line: string, i: nat)
    requires i < |AsRead(line)|
    ensures AsRead(line)[i] as int < 256 && AsRead(line)[i] != '\r'
    decreases |line|
  {
    if i > 0 {
      if line[0] == '\r' && |line| > 1 && line[1] == '\n' {
        AsReadRange(line[2..], i - 1);
      } else {
        AsReadRange(line[1..], i - 1);
      }
    }
  }

  predicate Printable(line: string) {
    forall i :: 0 <= i < |line| ==> line[i] as int < 256 && line[i] != '\r'
  }

  lemma {:induction false} BracketsAt(line: string, i: nat)
    requires i < |line|
    ensures |Brackets(line)| == |line| && Brackets(line)[i] == BracketChar(line[i])
  {
    if |line| > 1 {
      BracketsAt(line[1..], if i == 0 then 0 else i - 1);
    }
  }

  /** A line comes back as itself, with brackets for parentheses, exactly when it is latin-1 without CR. */
  lemma {:induction false} ExactlyPrintable(line: string)
    ensures AsRead(line) == Brackets(line) <==> Printable(line)
  {
    if Printable(line) {
      PrintableReadBack(line);
    } else {
      var i :| 0 <= i < |line| && !(line[i] as int < 256 && line[i] != '\r');
      BracketsAt(line, i);
      if AsRead(line) == Brackets(line) {
        AsReadRange(line, i);
      }
    }
  }

  lemma {:induction false} PrintableReadBack(line: string)
    requires Printable(line)
    ensures AsRead(line) == Brackets(line)
  {
    if line != "" {
      PrintableReadBack(line[1..]);
    }
  }

  /** Character by character, where no CR joins or ends lines. */
  lemma {:induction false} AsReadAt(line: string, i: nat)
    requires i < |line| && '\r' !in line
    ensures |AsRead(line)| == |line|
    ensures AsRead(line)[i] == if line[i] == '(' then '[' else if line[i] == ')' then ']'
                               else if line[i] as int > 255 then '?' else line[i]
  {
    if |line| > 1 {
      AsReadAt(line[1..], if i == 0 then 0 else i - 1);
    }
  }
}
