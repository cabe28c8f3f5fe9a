/** Text inside a PDF content stream (apps/api/app/actions/files.py, `_pdf_escape` and the page streams of
    `render_pdf`), against an independent reader for the literal strings of section 7.3.4.2 of ISO 32000-1.
    A character stands for the one byte that WinAnsiEncoding gives it. */
module PdfText {
  import opened Values
  import opened Text
  import opened Decimal

  /** `s.replace(c, by)` for a one-character pattern. */
  function Replace(s: string, c: char, with_: string): string {
    if s == "" then "" else (if s[0] == c then with_ else [s[0]]) + Replace(s[1..], c, with_)
  }

  /** The writer's three replacements, one after the other. */
  function Escape(s: string): string {
    Replace(Replace(Replace(s, '\\', "\\\\"), '(', "\\("), ')', "\\)")
  }

  predicate Special(c: char) {
    c == '\\' || c == '(' || c == ')'
  }

  /** Each special character behind one backslash. */
  function Quoted(s: string): string {
    if s == "" then "" else (if Special(s[0]) then ['\\', s[0]] else [s[0]]) + Quoted(s[1..])
  }

  lemma {:induction false} ReplaceAppend(a: string, b: string, c: char, with_: string)
    ensures Replace(a + b, c, with_) == Replace(a, c, with_) + Replace(b, c, with_)
  {
    if a == "" {
      assert a + b == b;
    } else {
      assert (a + b)[1..] == a[1..] + b;
      ReplaceAppend(a[1..], b, c, with_);
    }
  }

  /** One replacement of a one- or two-character text. */
  lemma ReplaceShort(a: char, b: char, c: char, with_: string)
    ensures Replace([a], c, with_) == if a == c then with_ else [a]
    ensures Replace([a, b], c, with_) == (if a == c then with_ else [a]) + (if b == c then with_ else [b])
  {
    assert [a][1..] == "" && [a, b][1..] == [b];
    assert Replace("", c, with_) == "";
    assert Replace([b], c, with_) == (if b == c then with_ else [b]) + "";
  }

  lemma EscapeOne(c: char)
    ensures Escape([c]) == if Special(c) then ['\\', c] else [c]
  {
    ReplaceShort(c, c, '\\', "\\\\");
    ReplaceShort(c, c, '(', "\\(");
    ReplaceShort(c, c, ')', "\\)");
    ReplaceShort('\\', '\\', '(', "\\(");
    ReplaceShort('\\', '\\', ')', "\\)");
    ReplaceShort('\\', '(', ')', "\\)");
  }

  /** Doing the replacements in this order never escapes an escape: it is one pass over the text. */
  lemma {:induction false} EscapeIsOnePass(s: string)
    ensures Escape(s) == Quoted(s)
  {
    if s == "" {
      assert Replace("", '\\', "\\\\") == "" && Replace("", '(', "\\(") == "" && Replace("", ')', "\\)") == "";
    } else {
      var head, tail := [s[0]], s[1..];
      assert s == head + tail;
      var h1, t1 := Replace(head, '\\', "\\\\"), Replace(tail, '\\', "\\\\");
      ReplaceAppend(head, tail, '\\', "\\\\");
      var h2, t2 := Replace(h1, '(', "\\("), Replace(t1, '(', "\\(");
      ReplaceAppend(h1, t1, '(', "\\(");
      ReplaceAppend(h2, t2, ')', "\\)");
      EscapeOne(s[0]);
      EscapeIsOnePass(tail);
    }
  }

  // --------------------------------------------- reading literal strings (ISO 32000-1, 7.3.4.2)

  datatype Literal = Literal(text: string, rest: string)

  predicate Octal(c: char) {
    '0' <= c <= '7'
  }

  /** The number of octal digits after a backslash that belong to the escape, at most three. */
  function OctalDigits(s: string): (n: nat)
    ensures n <= |s| && n <= 3 && forall i | 0 <= i < n :: Octal(s[i])
  {
    if s == "" || !Octal(s[0]) then 0
    else if |s| == 1 || !Octal(s[1]) then 1
    else if |s| == 2 || !Octal(s[2]) then 2
    else 3
  }

  function OctalValue(s: string): nat
    requires forall i | 0 <= i < |s| :: Octal(s[i])
  {
    if s == "" then 0
    else
      assert Octal(s[|s| - 1]);
      8 * OctalValue(s[..|s| - 1]) + (s[|s| - 1] as int - '0' as int)
  }

  /** An end-of-line marker: CR, LF, or CR followed by LF. */
  function EndOfLine(s: string): (n: nat)
    ensures n <= |s|
  {
    if s == "" then 0
    else if s[0] == '\r' then (if |s| > 1 && s[1] == '\n' then 2 else 1)
    else if s[0] == '\n' then 1
    else 0
  }

  function Prefixed(text: string, r: Option<Literal>): (p: Option<Literal>)
    ensures p.Some? <==> r.Some?
    ensures r.Some? ==> p.value.rest == r.value.rest
  {
    match r
    case None => None
    case Some(l) => Some(Literal(text + l.text, l.rest))
  }

  /** Reads a literal string whose opening parenthesis has been read, with `depth` balanced parentheses open inside. */
  function ReadLiteral(s: string, depth: nat): (r: Option<Literal>)
    ensures r.Some? ==> |r.value.rest| < |s|
    decreases |s|, 0
  {
    if s == "" then None
    else if s[0] == ')' then
      if depth == 0 then Some(Literal("", s[1..])) else Prefixed(")", ReadLiteral(s[1..], depth - 1))
    else if s[0] == '(' then Prefixed("(", ReadLiteral(s[1..], depth + 1))
    else if s[0] == '\\' then ReadEscape(s[1..], depth)
    else if EndOfLine(s) > 0 then Prefixed("\n", ReadLiteral(s[EndOfLine(s)..], depth))
    else Prefixed([s[0]], ReadLiteral(s[1..], depth))
  }

  /** What a backslash and the characters after it stand for. */
  function ReadEscape(s: string, depth: nat): (r: Option<Literal>)
    ensures r.Some? ==> |r.value.rest| < |s|
    decreases |s|, 1
  {
    if s == "" then None
    else if s[0] == '\\' || s[0] == '(' || s[0] == ')' then Prefixed([s[0]], ReadLiteral(s[1..], depth))
    else if s[0] == 'n' then Prefixed("\n", ReadLiteral(s[1..], depth))
    else if s[0] == 'r' then Prefixed("\r", ReadLiteral(s[1..], depth))
    else if s[0] == 't' then Prefixed("\t", ReadLiteral(s[1..], depth))
    else if s[0] == 'b' then Prefixed("\U{8}", ReadLiteral(s[1..], depth))
    else if s[0] == 'f' then Prefixed("\U{C}", ReadLiteral(s[1..], depth))
    else if EndOfLine(s) > 0 then ReadLiteral(s[EndOfLine(s)..], depth)
    else if OctalDigits(s) > 0 then
      var n := OctalDigits(s);
      Prefixed([(OctalValue(s[..n]) % 256) as char], ReadLiteral(s[n..], depth))
    else ReadLiteral(s, depth)
  }

  /** What reading makes of a text: an end-of-line marker becomes one line feed. */
  function LineFeeds(s: string): string
    decreases |s|
  {
    if s == "" then ""
    else if EndOfLine(s) > 0 then "\n" + LineFeeds(s[EndOfLine(s)..])
    else [s[0]] + LineFeeds(s[1..])
  }

  lemma ReadsSpecial(s: string)
    requires |s| >= 2 && s[0] == '\\' && Special(s[1])
    ensures ReadLiteral(s, 0) == Prefixed([s[1]], ReadLiteral(s[2..], 0))
  {
    assert s[1..][1..] == s[2..];
  }

  lemma ReadsLineEnd(s: string, n: nat)
    requires n == EndOfLine(s) > 0
    ensures ReadLiteral(s, 0) == Prefixed("\n", ReadLiteral(s[n..], 0))
  {
  }

  lemma ReadsPlain(s: string)
    requires s != "" && !Special(s[0]) && EndOfLine(s) == 0
    ensures ReadLiteral(s, 0) == Prefixed([s[0]], ReadLiteral(s[1..], 0))
  {
  }

  /** How the first character of a text is quoted, and what follows it. */
  lemma QuotedFirst(s: string, tail: string)
    requires s != ""
    ensures Special(s[0]) ==> Quoted(s) + tail == ['\\', s[0]] + (Quoted(s[1..]) + tail)
    ensures !Special(s[0]) ==> Quoted(s) + tail == [s[0]] + (Quoted(s[1..]) + tail)
  {
    Associative(if Special(s[0]) then ['\\', s[0]] else [s[0]], Quoted(s[1..]), tail);
  }

  /** Quoting leaves the line feed after a carriage return where it is. */
  lemma QuotedLineFeed(s: string, tail: string)
    requires EndOfLine(tail) == 0
    ensures var q := Quoted(s) + tail; (q != "" && q[0] == '\n') <==> (s != "" && s[0] == '\n')
  {
    if s == "" {
      assert Quoted(s) + tail == tail;
    } else {
      assert (Quoted(s) + tail)[0] == Quoted(s)[0];
    }
  }

  lemma QuotedLineEnd(s: string, tail: string)
    requires s != "" && !Special(s[0]) && EndOfLine(tail) == 0
    ensures EndOfLine(Quoted(s) + tail) == EndOfLine(s)
  {
    QuotedFirst(s, tail);
    QuotedLineFeed(s[1..], tail);
    EndOfLineOf(s[0], s[1..]);
    EndOfLineOf(s[0], Quoted(s[1..]) + tail);
    assert s == [s[0]] + s[1..];
  }

  lemma EndOfLineOf(c: char, rest: string)
    ensures EndOfLine([c] + rest) == if c == '\r' then (if rest != "" && rest[0] == '\n' then 2 else 1)
            else if c == '\n' then 1 else 0
  {
  }

  lemma QuotedPair(s: string, tail: string)
    requires EndOfLine(s) == 2
    ensures Quoted(s) + tail == [s[0], s[1]] + (Quoted(s[2..]) + tail)
  {
    QuotedFirst(s, tail);
    QuotedFirst(s[1..], tail);
    assert s[1..][1..] == s[2..];
    OneAndOne(s[0], s[1], Quoted(s[2..]) + tail);
  }

  lemma OneAndOne(a: char, b: char, rest: string)
    ensures [a] + ([b] + rest) == [a, b] + rest
  {
  }

  /** An escaped text between parentheses reads back as the text, up to how its line ends are marked. */
  lemma {:induction false} QuotedReadsBack(s: string, tail: string)
    requires tail != "" && tail[0] == ')'
    ensures ReadLiteral(Quoted(s) + tail, 0) == Some(Literal(LineFeeds(s), tail[1..]))
    decreases |s|
  {
    var all := Quoted(s) + tail;
    if s == "" {
      assert all == tail;
    } else {
      QuotedFirst(s, tail);
      var n := if EndOfLine(s) == 2 then 2 else 1;
      QuotedReadsBack(s[n..], tail);
      if Special(s[0]) {
        ReadsSpecial(all);
      } else {
        QuotedLineEnd(s, tail);
        if EndOfLine(s) == 2 {
          QuotedPair(s, tail);
        }
        if EndOfLine(s) > 0 {
          ReadsLineEnd(all, n);
        } else {
          ReadsPlain(all);
        }
      }
    }
  }

  lemma {:induction false} LineFeedsShorten(s: string)
    ensures |LineFeeds(s)| <= |s|
    ensures LineFeeds(s) == s <==> '\r' !in s
    decreases |s|
  {
    if s == "" {
    } else if EndOfLine(s) == 2 {
      LineFeedsShorten(s[2..]);
    } else {
      LineFeedsShorten(s[1..]);
      assert s == [s[0]] + s[1..];
    }
  }

  /** A line between parentheses reads back unchanged exactly when it holds no carriage return. */
  lemma EscapedReadsBackExactlyWhen(line: string, tail: string)
    requires tail != "" && tail[0] == ')'
    ensures ReadLiteral(Escape(line) + tail, 0).Some?
    ensures ReadLiteral(Escape(line) + tail, 0) == Some(Literal(line, tail[1..])) <==> '\r' !in line
  {
    EscapeIsOnePass(line);
    QuotedReadsBack(line, tail);
    LineFeedsShorten(line);
  }

  // ------------------------------------------------------------------ page content streams

  /** An operator line of a page stream: one that shows no text, or one that shows a line of it. */
  datatype Operation =
    | Plain(code: string)
    | Show(before: string, line: string, after: string)

  predicate Harmless(code: string) {
    forall i | 0 <= i < |code| :: code[i] != '('
  }

  predicate Wellformed(op: Operation) {
    match op
    case Plain(code) => Harmless(code)
    case Show(before, _, after) => Harmless(before) && Harmless(after) && Shows(after)
  }

  /** The text-showing operator follows the literal. */
  predicate Shows(after: string) {
    |after| >= 3 && after[0] == ' ' && after[1] == 'T' && after[2] == 'j'
  }

  function Code(op: Operation): string {
    match op
    case Plain(code) => code
    case Show(before, line, after) => before + ("(" + (Escape(line) + (")" + after)))
  }

  function Codes(ops: seq<Operation>): (codes: seq<string>)
    ensures |codes| == |ops|
  {
    if ops == [] then [] else [Code(ops[0])] + Codes(ops[1..])
  }

  function ShownLines(ops: seq<Operation>): seq<string> {
    if ops == [] then []
    else if ops[0].Plain? then ShownLines(ops[1..])
    else [LineFeeds(ops[0].line)] + ShownLines(ops[1..])
  }

  /** A reader of content streams: the texts that its `Tj` operators show. */
  function Shown(stream: string): Option<seq<string>>
    decreases |stream|
  {
    if stream == "" then Some([])
    else if stream[0] != '(' then Shown(stream[1..])
    else
      match ReadLiteral(stream[1..], 0)
      case None => None
      case Some(l) => if !Shows(l.rest) then None else More(l.text, Shown(l.rest))
  }

  function More(text: string, texts: Option<seq<string>>): Option<seq<string>> {
    match texts
    case None => None
    case Some(ts) => Some([text] + ts)
  }

  lemma {:induction false} ShownSkips(code: string, rest: string)
    requires Harmless(code)
    ensures Shown(code + rest) == Shown(rest)
  {
    if code == "" {
      assert code + rest == rest;
    } else {
      assert (code + rest)[1..] == code[1..] + rest;
      ShownSkips(code[1..], rest);
    }
  }

  lemma ShownLiteral(line: string, after: string, rest: string)
    requires Harmless(after) && Shows(after)
    ensures Shown("(" + (Escape(line) + (")" + (after + rest)))) == More(LineFeeds(line), Shown(rest))
  {
    var tail := ")" + (after + rest);
    var all := "(" + (Escape(line) + tail);
    assert all[1..] == Escape(line) + tail && tail[1..] == after + rest;
    EscapeIsOnePass(line);
    QuotedReadsBack(line, tail);
    ShownSkips(after, rest);
  }

  lemma ShownOperation(op: Operation, rest: string)
    requires Wellformed(op)
    ensures Shown(Code(op) + rest) == if op.Show? then More(LineFeeds(op.line), Shown(rest)) else Shown(rest)
  {
    match op
    case Plain(code) =>
      ShownSkips(code, rest);
    case Show(before, line, after) =>
      var inner := "(" + (Escape(line) + (")" + (after + rest)));
      assert Code(op) + rest == before + inner;
      ShownSkips(before, inner);
      ShownLiteral(line, after, rest);
  }

  lemma LastOperation(op: Operation)
    requires Wellformed(op)
    ensures Shown(Code(op)) == Some(ShownLines([op]))
  {
    ShownOperation(op, "");
    assert Code(op) + "" == Code(op);
    assert Shown("") == Some([]) && ShownLines([]) == [] && [op][1..] == [];
    if op.Show? {
      assert More(LineFeeds(op.line), Shown("")) == Some([LineFeeds(op.line)] + []);
    }
  }

  /** A stream of operators shows exactly the lines its operators carry, in order. */
  lemma {:induction false} StreamShowsItsLines(ops: seq<Operation>)
    requires forall op | op in ops :: Wellformed(op)
    ensures Shown(Join("\n", Codes(ops))) == Some(ShownLines(ops))
  {
    if ops == [] {
    } else if |ops| == 1 {
      LastOperation(ops[0]);
      assert ops == [ops[0]] && Join("\n", Codes(ops)) == Code(ops[0]);
    } else {
      var rest := Join("\n", Codes(ops[1..]));
      StreamShowsItsLines(ops[1..]);
      assert Codes(ops)[1..] == Codes(ops[1..]);
      assert Join("\n", Codes(ops)) == Code(ops[0]) + ("\n" + rest);
      ShownOperation(ops[0], "\n" + rest);
      ShownSkips("\n", rest);
    }
  }

  lemma {:induction false} CodesAppend(a: seq<Operation>, b: seq<Operation>)
    ensures Codes(a + b) == Codes(a) + Codes(b)
    ensures ShownLines(a + b) == ShownLines(a) + ShownLines(b)
  {
    if a == [] {
      assert a + b == b;
    } else {
      assert (a + b)[1..] == a[1..] + b;
      CodesAppend(a[1..], b);
    }
  }

  /** The operators for line `index` of a page: title, subtitle and body are set in their own fonts. */
  function LineOperations(index: nat, line: string): seq<Operation> {
    (if index == 1 then [Plain("/F1 9 Tf")] else if index == 3 then [Plain("/F1 10 Tf")] else [])
    + [Show("", line, " Tj T*")]
  }

  function LinesOperations(lines: seq<string>): seq<Operation> {
    if lines == [] then [] else LinesOperations(lines[..|lines| - 1]) + LineOperations(|lines| - 1, lines[|lines| - 1])
  }

  function Footer(number: nat, total: nat): string {
    "Page " + Digits(number) + " of " + Digits(total)
  }

  function PageOperations(lines: seq<string>, number: nat, total: nat): seq<Operation> {
    Opening() + LinesOperations(lines) + Closing(number, total)
  }

  lemma {:induction false} LinesOperationsShow(lines: seq<string>)
    ensures ShownLines(LinesOperations(lines)) == Fed(lines)
    ensures forall op | op in LinesOperations(lines) :: Wellformed(op)
  {
    if lines != [] {
      var front, last := lines[..|lines| - 1], lines[|lines| - 1];
      LinesOperationsShow(front);
      CodesAppend(LinesOperations(front), LineOperations(|front|, last));
      LineOperationsShow(|front|, last);
    }
  }

  lemma LineOperationsShow(index: nat, line: string)
    ensures ShownLines(LineOperations(index, line)) == [LineFeeds(line)]
    ensures forall op | op in LineOperations(index, line) :: Wellformed(op)
  {
    var show := Show("", line, " Tj T*");
    assert Wellformed(show);
    assert ShownLines([show]) == [LineFeeds(line)];
    var ops := LineOperations(index, line);
    if |ops| == 1 {
      assert ops == [show];
    } else {
      assert ops[1..] == [show];
      assert Wellformed(ops[0]);
    }
  }

  /** Lines as a reader gets them, in page order. */
  function Fed(lines: seq<string>): (fed: seq<string>)
    ensures |fed| == |lines|
  {
    if lines == [] then [] else Fed(lines[..|lines| - 1]) + [LineFeeds(lines[|lines| - 1])]
  }

  /** The reader gets the lines unchanged exactly when none of them holds a carriage return. */
  lemma {:induction false} FedExactlyWhen(lines: seq<string>)
    ensures Fed(lines) == lines <==> forall line | line in lines :: '\r' !in line
  {
    if lines != [] {
      var front, last := lines[..|lines| - 1], lines[|lines| - 1];
      FedExactlyWhen(front);
      LineFeedsShorten(last);
      assert lines == front + [last];
    }
  }

  /** A text that escaping and reading leave as it is. */
  predicate Safe(s: string) {
    forall i | 0 <= i < |s| :: !Special(s[i]) && s[i] != '\r'
  }

  lemma DigitsAreSafe(n: nat)
    ensures Safe(Digits(n))
  {
    assert forall i | 0 <= i < |Digits(n)| :: IsDigit(Digits(n)[i]);
  }

  lemma SafeJoin(a: string, b: string)
    requires Safe(a) && Safe(b)
    ensures Safe(a + b)
  {
  }

  lemma {:induction false} NothingToQuote(s: string)
    requires Safe(s)
    ensures Quoted(s) == s
  {
    if s != "" {
      NothingToQuote(s[1..]);
      assert s == [s[0]] + s[1..];
    }
  }

  /** The footer needs no escaping, which is how the writer can leave it as it is. */
  lemma FooterIsSafe(number: nat, total: nat)
    ensures Escape(Footer(number, total)) == Footer(number, total)
    ensures LineFeeds(Footer(number, total)) == Footer(number, total)
  {
    DigitsAreSafe(number);
    DigitsAreSafe(total);
    SafeJoin("Page ", Digits(number));
    SafeJoin("Page " + Digits(number), " of ");
    SafeJoin("Page " + Digits(number) + " of ", Digits(total));
    SafeReadsBack(Footer(number, total));
  }

  lemma SafeReadsBack(s: string)
    requires Safe(s)
    ensures Escape(s) == s == LineFeeds(s)
  {
    EscapeIsOnePass(s);
    NothingToQuote(s);
    LineFeedsShorten(s);
  }

  method AddLine(streamLines0: seq<string>, index: nat, line: string) returns (streamLines: seq<string>)
    ensures streamLines == streamLines0 + Codes(LineOperations(index, line))
  {
    streamLines := streamLines0;
    ghost var show := Show("", line, " Tj T*");
    var code := "(" + Escape(line) + ") Tj T*";
    ShowCode(line, show, code);
    if index == 1 {
      streamLines := streamLines + ["/F1 9 Tf"];
      CodesAppend([Plain("/F1 9 Tf")], [show]);
    } else if index == 3 {
      streamLines := streamLines + ["/F1 10 Tf"];
      CodesAppend([Plain("/F1 10 Tf")], [show]);
    }
    streamLines := streamLines + [code];
  }

  lemma ShowCode(line: string, show: Operation, code: string)
    requires show == Show("", line, " Tj T*") && code == "(" + Escape(line) + ") Tj T*"
    ensures Codes([show]) == [code]
  {
    assert Code(show) == code;
  }

  function Opening(): seq<Operation> {
    [Plain("BT"), Plain("/F2 13 Tf"), Plain("50 800 Td"), Plain("14 TL")]
  }

  const FOOTER_SHOW := "/F1 8 Tf 0 -10 Td "

  function Closing(number: nat, total: nat): seq<Operation> {
    [Show(FOOTER_SHOW, Footer(number, total), " Tj"), Plain("ET")]
  }

  lemma OpeningCodes()
    ensures Codes(Opening()) == ["BT", "/F2 13 Tf", "50 800 Td", "14 TL"]
    ensures ShownLines(Opening()) == [] && forall op | op in Opening() :: Wellformed(op)
  {
    var ops := Opening();
    assert ops[1..][1..][1..] == [ops[3]];
    assert Codes([ops[3]]) == [Code(ops[3])];
  }

  lemma ClosingCodes(number: nat, total: nat)
    ensures Codes(Closing(number, total)) == [FOOTER_SHOW + "(" + Footer(number, total) + ") Tj", "ET"]
    ensures ShownLines(Closing(number, total)) == [Footer(number, total)]
    ensures forall op | op in Closing(number, total) :: Wellformed(op)
  {
    FooterIsSafe(number, total);
    FooterCode(Footer(number, total));
    TwoCodes(Show(FOOTER_SHOW, Footer(number, total), " Tj"), Plain("ET"));
  }

  lemma FooterCode(footer: string)
    requires Escape(footer) == footer
    ensures Code(Show(FOOTER_SHOW, footer, " Tj")) == FOOTER_SHOW + "(" + footer + ") Tj"
    ensures Wellformed(Show(FOOTER_SHOW, footer, " Tj")) && Wellformed(Plain("ET"))
  {
    InBrackets(FOOTER_SHOW, footer, " Tj");
    assert ")" + " Tj" == ") Tj";
  }

  lemma InBrackets(before: string, text: string, after: string)
    ensures before + ("(" + (text + (")" + after))) == before + "(" + text + (")" + after)
  {
  }

  lemma TwoCodes(show: Operation, plain: Operation)
    requires show.Show? && plain.Plain?
    ensures Codes([show, plain]) == [Code(show), Code(plain)] && ShownLines([show, plain]) == [LineFeeds(show.line)]
  {
    var ops := [show, plain];
    OneCode(plain);
    assert ops[1..] == [plain];
    assert ShownLines(ops) == [LineFeeds(show.line)] + ShownLines([plain]);
  }

  lemma OneCode(plain: Operation)
    ensures Codes([plain]) == [Code(plain)]
    ensures plain.Plain? ==> ShownLines([plain]) == []
  {
    var ops := [plain];
    assert ops[1..] == [];
  }

  method AddFooter(streamLines0: seq<string>, number: nat, total: nat) returns (streamLines: seq<string>)
    ensures streamLines == streamLines0 + Codes(Closing(number, total))
  {
    ClosingCodes(number, total);
    streamLines := streamLines0 + [FOOTER_SHOW + "(" + Footer(number, total) + ") Tj"];
    streamLines := streamLines + ["ET"];
  }

  method AddLines(streamLines0: seq<string>, lines: seq<string>) returns (streamLines: seq<string>)
    ensures streamLines == streamLines0 + Codes(LinesOperations(lines))
  {
    streamLines := streamLines0;
    for index := 0 to |lines|
      invariant streamLines == streamLines0 + Codes(LinesOperations(lines[..index]))
    {
      OneMoreLine(lines, index);
      Associative(streamLines0, Codes(LinesOperations(lines[..index])), Codes(LineOperations(index, lines[index])));
      streamLines := AddLine(streamLines, index, lines[index]);
    }
    assert lines[..|lines|] == lines;
  }

  lemma OneMoreLine(lines: seq<string>, index: nat)
    requires index < |lines|
    ensures Codes(LinesOperations(lines[..index + 1])) == Codes(LinesOperations(lines[..index]))
            + Codes(LineOperations(index, lines[index]))
  {
    assert lines[..index + 1][..index] == lines[..index];
    CodesAppend(LinesOperations(lines[..index]), LineOperations(index, lines[index]));
  }

  /** The content stream of a page: a reader gets the page's lines from it, and the page number. */
  method PageStream(lines: seq<string>, number: nat, total: nat) returns (stream: string)
    ensures stream == Join("\n", Codes(PageOperations(lines, number, total)))
    ensures Shown(stream) == Some(Fed(lines) + [Footer(number, total)])
  {
    var streamLines := ["BT", "/F2 13 Tf", "50 800 Td", "14 TL"];
    OpeningCodes();
    streamLines := AddLines(streamLines, lines);
    streamLines := AddFooter(streamLines, number, total);
    PageOperationsShow(lines, number, total);
    stream := Join("\n", streamLines);
  }

  lemma PageOperationsShow(lines: seq<string>, number: nat, total: nat)
    ensures Codes(PageOperations(lines, number, total)) == Codes(Opening()) + Codes(LinesOperations(lines))
            + Codes(Closing(number, total))
    ensures Shown(Join("\n", Codes(PageOperations(lines, number, total)))) == Some(Fed(lines) + [Footer(number, total)])
  {
    CodesAppend(Opening(), LinesOperations(lines));
    CodesAppend(Opening() + LinesOperations(lines), Closing(number, total));
    OpeningCodes();
    ClosingCodes(number, total);
    LinesOperationsShow(lines);
    assert [] + Fed(lines) == Fed(lines);
    StreamShowsItsLines(PageOperations(lines, number, total));
  }
}
