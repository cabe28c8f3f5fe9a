/** Where the lines of a PDF page are drawn, and in which font (apps/api/app/actions/files.py, the page streams of
    `render_pdf`), as a reader follows the text operators of sections 9.3 and 9.4 of ISO 32000-1. */
module PdfLayout {
  import opened Text
  import opened Decimal
  import opened PdfText
  import PdfDocument

  // ------------------------------------------------------------------- following text operators

  /** The font, the leading and where the current line starts. */
  datatype Setting = Setting(font: string, size: int, leading: int, x: int, y: int)

  /** A text as it is drawn. */
  datatype Drawn = Drawn(text: string, font: string, size: int, x: int, y: int)

  function ReadInt(token: string): int {
    if AllDigits(token) then Number(token)
    else if token != "" && token[0] == '-' && AllDigits(token[1..]) then 0 - Number(token[1..])
    else 0
  }

  /** `BT` begins at the origin, `Tf` sets font and size, `TL` the leading, `Td` moves the start of the line, and
      `T*` goes to the next one. */
  function Follow(tokens: seq<string>, s: Setting): Setting {
    if tokens == [] then s
    else if tokens[0] == "BT" then Follow(tokens[1..], s.(x := 0, y := 0))
    else if tokens[0] == "T*" then Follow(tokens[1..], s.(y := s.y - s.leading))
    else if |tokens| >= 2 && tokens[1] == "TL" then Follow(tokens[2..], s.(leading := ReadInt(tokens[0])))
    else if |tokens| >= 3 && tokens[2] == "Tf" then
      Follow(tokens[3..], s.(font := tokens[0], size := ReadInt(tokens[1])))
    else if |tokens| >= 3 && tokens[2] == "Td" then
      Follow(tokens[3..], s.(x := s.x + ReadInt(tokens[0]), y := s.y + ReadInt(tokens[1])))
    else Follow(tokens[1..], s)
  }

  function After(op: Operation, s: Setting): Setting {
    match op
    case Plain(code) => Follow(Words(code), s)
    case Show(before, _, after) => Follow(Words(after), Follow(Words(before), s))
  }

  function DrawnBy(op: Operation, s: Setting): seq<Drawn> {
    match op
    case Plain(_) => []
    case Show(before, line, _) =>
      var now := Follow(Words(before), s);
      [Drawn(LineFeeds(line), now.font, now.size, now.x, now.y)]
  }

  function End(ops: seq<Operation>, s: Setting): Setting {
    if ops == [] then s else After(ops[|ops| - 1], End(ops[..|ops| - 1], s))
  }

  /** What the operators draw, in order. */
  function Drawing(ops: seq<Operation>, s: Setting): seq<Drawn> {
    if ops == [] then []
    else Drawing(ops[..|ops| - 1], s) + DrawnBy(ops[|ops| - 1], End(ops[..|ops| - 1], s))
  }

  lemma {:induction false} DrawingAppend(a: seq<Operation>, b: seq<Operation>, s: Setting)
    ensures End(a + b, s) == End(b, End(a, s))
    ensures Drawing(a + b, s) == Drawing(a, s) + Drawing(b, End(a, s))
  {
    if b == [] {
      assert a + b == a;
    } else {
      assert (a + b)[..|a + b| - 1] == a + b[..|b| - 1];
      DrawingAppend(a, b[..|b| - 1], s);
    }
  }

  lemma OneOperation(op: Operation, s: Setting)
    ensures End([op], s) == After(op, s) && Drawing([op], s) == DrawnBy(op, s)
  {
    assert [op][..0] == [] && End([], s) == s && Drawing([], s) == [];
  }

  lemma TwoOperations(a: Operation, b: Operation, s: Setting)
    ensures End([a, b], s) == After(b, After(a, s))
    ensures Drawing([a, b], s) == DrawnBy(a, s) + DrawnBy(b, After(a, s))
  {
    assert [a, b] == [a] + [b];
    DrawingAppend([a], [b], s);
    OneOperation(a, s);
    OneOperation(b, After(a, s));
  }

  // ------------------------------------------------------------------- the operators that are written

  lemma ThreeWords(a: string, b: string, c: string)
    requires IsWord(a) && IsWord(b) && IsWord(c)
    ensures Words(a + " " + b + " " + c) == [a, b, c]
  {
    var words := [a, b, c];
    WordsJoin(words);
    assert words[1..] == [b, c] && [b, c][1..] == [c];
    assert Join(" ", [b, c]) == b + " " + c;
    assert Join(" ", words) == a + " " + b + " " + c;
  }

  lemma ThreeTokens(a: string, b: string, c: string, s: Setting)
    requires a != "BT" && a != "T*" && b != "TL"
    ensures c == "Tf" ==> Follow([a, b, c], s) == s.(font := a, size := ReadInt(b))
    ensures c == "Td" ==> Follow([a, b, c], s) == s.(x := s.x + ReadInt(a), y := s.y + ReadInt(b))
  {
    assert [a, b, c][3..] == [];
  }

  lemma SetsFont(font: string, digits: string, s: Setting)
    requires IsWord(font) && IsWord(digits) && font != "BT" && font != "T*" && digits != "TL"
    ensures Follow(Words(font + " " + digits + " Tf"), s) == s.(font := font, size := ReadInt(digits))
  {
    ThreeWords(font, digits, "Tf");
    assert font + " " + digits + " Tf" == font + " " + digits + " " + "Tf";
    ThreeTokens(font, digits, "Tf", s);
  }

  lemma TwoDigits(a: char, b: char)
    requires IsDigit(a) && IsDigit(b)
    ensures ReadInt([a, b]) == 10 * (a as int - '0' as int) + (b as int - '0' as int)
  {
    assert [a, b][..1] == [a];
    OneDigit(a);
  }

  lemma OneDigit(a: char)
    requires IsDigit(a)
    ensures ReadInt([a]) == Number([a]) == a as int - '0' as int
  {
    assert [a][..0] == "" && Number("") == 0;
  }

  lemma TitleFont(code: string, s: Setting)
    requires code == "/F2 13 Tf"
    ensures Follow(Words(code), s) == s.(font := "/F2", size := 13)
  {
    SetsFont("/F2", "13", s);
    TwoDigits('1', '3');
    assert "/F2" + " " + "13" + " Tf" == code;
  }

  lemma SubtitleFont(code: string, s: Setting)
    requires code == "/F1 9 Tf"
    ensures Follow(Words(code), s) == s.(font := "/F1", size := 9)
  {
    SetsFont("/F1", "9", s);
    OneDigit('9');
    assert "/F1" + " " + "9" + " Tf" == code;
  }

  lemma BodyFont(code: string, s: Setting)
    requires code == "/F1 10 Tf"
    ensures Follow(Words(code), s) == s.(font := "/F1", size := 10)
  {
    SetsFont("/F1", "10", s);
    TwoDigits('1', '0');
    assert "/F1" + " " + "10" + " Tf" == code;
  }

  lemma Begins(code: string, s: Setting)
    requires code == "BT"
    ensures Follow(Words(code), s) == s.(x := 0, y := 0)
  {
    WordsJoin(["BT"]);
    assert ["BT"][1..] == [];
  }

  lemma Moves(code: string, s: Setting)
    requires code == "50 800 Td"
    ensures Follow(Words(code), s) == s.(x := s.x + 50, y := s.y + 800)
  {
    ThreeWords("50", "800", "Td");
    ThreeTokens("50", "800", "Td", s);
    TwoDigits('5', '0');
    EightHundred();
    assert "50" + " " + "800" + " " + "Td" == code;
  }

  lemma EightHundred()
    ensures ReadInt("800") == 800
  {
    TwoDigits('8', '0');
    assert "800"[..2] == "80";
  }

  lemma SetsLeading(code: string, s: Setting)
    requires code == "14 TL"
    ensures Follow(Words(code), s) == s.(leading := 14)
  {
    WordsJoin(["14", "TL"]);
    TwoWords("14", "TL");
    TwoDigits('1', '4');
    assert "14" + " " + "TL" == code && ["14", "TL"][2..] == [];
  }

  lemma TwoWords(a: string, b: string)
    ensures Join(" ", [a, b]) == a + " " + b
  {
    assert [a, b][1..] == [b];
  }

  lemma OpeningBy(a: string, b: string, c: string, d: string, s: Setting)
    requires a == "BT" && b == "/F2 13 Tf" && c == "50 800 Td" && d == "14 TL"
    ensures var ops := [Plain(a), Plain(b), Plain(c), Plain(d)];
            End(ops, s) == Setting("/F2", 13, 14, 50, 800) && Drawing(ops, s) == []
  {
    var front, back := [Plain(a), Plain(b)], [Plain(c), Plain(d)];
    assert [Plain(a), Plain(b), Plain(c), Plain(d)] == front + back;
    var s1 := Setting("/F2", 13, s.leading, 0, 0);
    DrawingAppend(front, back, s);
    TwoOperations(Plain(a), Plain(b), s);
    Begins(a, s);
    TitleFont(b, s.(x := 0, y := 0));
    TwoOperations(Plain(c), Plain(d), s1);
    Moves(c, s1);
    SetsLeading(d, s1.(x := 50, y := 800));
  }

  /** What the opening operators set. */
  lemma OpeningSets(s: Setting)
    ensures End(Opening(), s) == Setting("/F2", 13, 14, 50, 800) && Drawing(Opening(), s) == []
  {
    OpeningBy("BT", "/F2 13 Tf", "50 800 Td", "14 TL", s);
  }

  lemma ShowTokens(after: string)
    requires after == " Tj T*"
    ensures Words(after) == ["Tj", "T*"]
  {
    WordsJoin(["Tj", "T*"]);
    TwoWords("Tj", "T*");
    WordsAfterSpace(" ", "Tj" + " " + "T*");
    assert " " + ("Tj" + " " + "T*") == after;
  }

  lemma NextLine(s: Setting)
    ensures Follow(["Tj", "T*"], s) == s.(y := s.y - s.leading)
  {
    assert ["Tj", "T*"][1..] == ["T*"] && ["T*"][1..] == [];
    assert Follow(["T*"], s) == s.(y := s.y - s.leading);
  }

  /** A line as it is shown: drawn where it starts, with the next one a leading below. */
  lemma ShownLine(show: Operation, line: string, s: Setting)
    requires show == Show("", line, " Tj T*")
    ensures DrawnBy(show, s) == [Drawn(LineFeeds(line), s.font, s.size, s.x, s.y)]
    ensures After(show, s) == s.(y := s.y - s.leading)
  {
    ShowTokens(show.after);
    NextLine(s);
    assert Words(show.before) == [] && Follow([], s) == s;
  }

  // ------------------------------------------------------------------- the page

  function FontOf(index: nat): string {
    if index == 0 then "/F2" else "/F1"
  }

  function SizeOf(index: nat): int {
    if index == 0 then 13 else if index < 3 then 9 else 10
  }

  /** Where a page's line is drawn: the title in bold, the heading small, every line 14 points below the one before. */
  function PlacedLine(index: nat, line: string): Drawn {
    Drawn(LineFeeds(line), FontOf(index), SizeOf(index), 50, 800 - 14 * index)
  }

  function PlacedLines(lines: seq<string>): (drawn: seq<Drawn>)
    ensures |drawn| == |lines| && forall i | 0 <= i < |lines| :: drawn[i] == PlacedLine(i, lines[i])
  {
    seq(|lines|, i requires 0 <= i < |lines| => PlacedLine(i, lines[i]))
  }

  /** Before line `index`: the font of the line before it, at the place of this one. */
  function Before(index: nat): Setting {
    if index == 0 then Setting("/F2", 13, 14, 50, 800)
    else Setting(FontOf(index - 1), SizeOf(index - 1), 14, 50, 800 - 14 * index)
  }

  /** A line in a font of its own. */
  lemma LineInFont(code: string, show: Operation, line: string, s: Setting, now: Setting)
    requires show == Show("", line, " Tj T*") && Follow(Words(code), s) == now
    ensures Drawing([Plain(code), show], s) == [Drawn(LineFeeds(line), now.font, now.size, now.x, now.y)]
    ensures End([Plain(code), show], s) == now.(y := now.y - now.leading)
  {
    TwoOperations(Plain(code), show, s);
    ShownLine(show, line, now);
    assert [] + DrawnBy(show, now) == DrawnBy(show, now);
  }

  lemma SubtitleIsPlaced(code: string, show: Operation, line: string)
    requires code == "/F1 9 Tf" && show == Show("", line, " Tj T*")
    ensures Drawing([Plain(code), show], Before(1)) == [PlacedLine(1, line)]
    ensures End([Plain(code), show], Before(1)) == Before(2)
  {
    SubtitleFont(code, Before(1));
    LineInFont(code, show, line, Before(1), Before(1).(font := "/F1", size := 9));
  }

  lemma BodyIsPlaced(code: string, show: Operation, line: string)
    requires code == "/F1 10 Tf" && show == Show("", line, " Tj T*")
    ensures Drawing([Plain(code), show], Before(3)) == [PlacedLine(3, line)]
    ensures End([Plain(code), show], Before(3)) == Before(4)
  {
    BodyFont(code, Before(3));
    LineInFont(code, show, line, Before(3), Before(3).(font := "/F1", size := 10));
  }

  lemma NextIsPlaced(index: nat, show: Operation, line: string)
    requires index != 1 && index != 3 && show == Show("", line, " Tj T*")
    ensures Drawing([show], Before(index)) == [PlacedLine(index, line)]
    ensures End([show], Before(index)) == Before(index + 1)
  {
    OneOperation(show, Before(index));
    ShownLine(show, line, Before(index));
  }

  lemma LineIsPlaced(index: nat, line: string, ops: seq<Operation>)
    requires ops == LineOperations(index, line)
    ensures Drawing(ops, Before(index)) == [PlacedLine(index, line)] && End(ops, Before(index)) == Before(index + 1)
  {
    if index == 1 {
      assert ops == [ops[0], ops[1]];
      SubtitleIsPlaced(ops[0].code, ops[1], line);
    } else if index == 3 {
      assert ops == [ops[0], ops[1]];
      BodyIsPlaced(ops[0].code, ops[1], line);
    } else {
      assert ops == [ops[0]];
      NextIsPlaced(index, ops[0], line);
    }
  }

  lemma PlacedSnoc(lines: seq<string>)
    requires lines != []
    ensures var n := |lines| - 1; PlacedLines(lines) == PlacedLines(lines[..n]) + [PlacedLine(n, lines[n])]
  {
  }

  lemma {:induction false} LinesArePlaced(lines: seq<string>)
    ensures Drawing(LinesOperations(lines), Before(0)) == PlacedLines(lines)
    ensures End(LinesOperations(lines), Before(0)) == Before(|lines|)
  {
    if lines != [] {
      var n := |lines| - 1;
      LinesArePlaced(lines[..n]);
      LineFollows(LinesOperations(lines[..n]), PlacedLines(lines[..n]), n, lines[n]);
      PlacedSnoc(lines);
    }
  }

  lemma LineFollows(ops: seq<Operation>, drawn: seq<Drawn>, n: nat, line: string)
    requires Drawing(ops, Before(0)) == drawn && End(ops, Before(0)) == Before(n)
    ensures Drawing(ops + LineOperations(n, line), Before(0)) == drawn + [PlacedLine(n, line)]
    ensures End(ops + LineOperations(n, line), Before(0)) == Before(n + 1)
  {
    LineIsPlaced(n, line, LineOperations(n, line));
    DrawingAppend(ops, LineOperations(n, line), Before(0));
  }

  // ------------------------------------------------------------------- the page number

  lemma SixWords(a: string, b: string, c: string, d: string, e: string, f: string)
    requires IsWord(a) && IsWord(b) && IsWord(c) && IsWord(d) && IsWord(e) && IsWord(f)
    ensures Words((a + " " + b + " " + c) + (" " + (d + " " + e + " " + f))) == [a, b, c, d, e, f]
  {
    ThreeWords(a, b, c);
    ThreeWords(d, e, f);
    WordsAround(a + " " + b + " " + c, " ", d + " " + e + " " + f);
    assert [a, b, c] + [d, e, f] == [a, b, c, d, e, f];
  }

  lemma TokensBeforeSpace(a: string, b: string, c: string, d: string, e: string, f: string, text: string)
    requires IsWord(a) && IsWord(b) && IsWord(c) && IsWord(d) && IsWord(e) && IsWord(f)
    requires text == (a + " " + b + " " + c) + (" " + (d + " " + e + " " + f)) + " "
    ensures Words(text) == [a, b, c, d, e, f]
  {
    SixWords(a, b, c, d, e, f);
    TrailingSpace((a + " " + b + " " + c) + (" " + (d + " " + e + " " + f)), " ");
  }

  lemma FooterTokens(before: string)
    requires before == FOOTER_SHOW
    ensures Words(before) == ["/F1", "8", "Tf", "0", "-10", "Td"]
  {
    TokensBeforeSpace("/F1", "8", "Tf", "0", "-10", "Td", before);
  }

  lemma Negative(digits: string, n: nat)
    requires AllDigits(digits) && digits != "" && ReadInt(digits) == n
    ensures ReadInt("-" + digits) == 0 - n
  {
    var token := "-" + digits;
    assert token[0] == '-' && token[1..] == digits && !IsDigit('-');
  }

  lemma MinusTen(token: string)
    requires token == "-10"
    ensures ReadInt(token) == 0 - 10
  {
    TwoDigits('1', '0');
    Negative(['1', '0'], 10);
    assert "-" + ['1', '0'] == token;
  }

  lemma SixTokens(a: string, b: string, c: string, d: string, e: string, f: string, s: Setting)
    requires a != "BT" && a != "T*" && b != "TL" && c == "Tf" && d != "BT" && d != "T*" && e != "TL" && f == "Td"
    ensures Follow([a, b, c, d, e, f], s) ==
            s.(font := a, size := ReadInt(b), x := s.x + ReadInt(d), y := s.y + ReadInt(e))
  {
    assert [a, b, c, d, e, f][3..] == [d, e, f];
    ThreeTokens(d, e, f, s.(font := a, size := ReadInt(b)));
  }

  lemma FooterFollows(before: string, s: Setting)
    requires before == FOOTER_SHOW
    ensures Follow(Words(before), s) == s.(font := "/F1", size := 8, y := s.y - 10)
  {
    FooterTokens(before);
    OneDigit('8');
    OneDigit('0');
    MinusTen("-10");
    SixTokens("/F1", "8", "Tf", "0", "-10", "Td", s);
  }

  /** A text in a setting of its own, and an operator that draws nothing. */
  lemma LastIsPlaced(before: string, footer: string, after: string, end: Operation, s: Setting, now: Setting)
    requires end.Plain? && LineFeeds(footer) == footer && Follow(Words(before), s) == now
    ensures Drawing([Show(before, footer, after), end], s) == [Drawn(footer, now.font, now.size, now.x, now.y)]
  {
    TwoOperations(Show(before, footer, after), end, s);
    assert DrawnBy(Show(before, footer, after), s) + [] == DrawnBy(Show(before, footer, after), s);
  }

  /** What a page draws: its lines in their places, and its number 24 points below the last. */
  function PlacedPage(lines: seq<string>, footer: string): seq<Drawn> {
    PlacedLines(lines) + [Drawn(footer, "/F1", 8, 50, 790 - 14 * |lines|)]
  }

  /** A page draws the title in bold 13, the two heading lines in 9 and the body in 10 points, every line 14 points
      below the one before, and then the page number. */
  lemma PageIsPlaced(lines: seq<string>, number: nat, total: nat, s: Setting)
    ensures Drawing(PageOperations(lines, number, total), s) == PlacedPage(lines, Footer(number, total))
  {
    var drawn, footer := LinesAndFooter(lines, number, total, s);
    assert footer == Drawn(Footer(number, total), "/F1", 8, 50, 790 - 14 * |lines|);
  }

  lemma LinesAndFooter(lines: seq<string>, number: nat, total: nat, s: Setting)
      returns (drawn: seq<Drawn>, footer: Drawn)
    ensures Drawing(PageOperations(lines, number, total), s) == drawn + [footer] && drawn == PlacedLines(lines)
    ensures footer.text == Footer(number, total) && footer.font == "/F1" && footer.size == 8
    ensures footer.x == 50 && footer.y == 790 - 14 * |lines|
  {
    var front, before, after, end, now := PartsOfPage(lines, number, total, s);
    drawn, footer := PlacedLines(lines), Drawn(Footer(number, total), now.font, now.size, now.x, now.y);
    PageIsClosed(front, before, after, end, drawn, Footer(number, total), s, Before(|lines|), now);
  }

  /** A page's operators: those that draw its lines, and those that draw its number. */
  lemma PartsOfPage(lines: seq<string>, number: nat, total: nat, s: Setting)
      returns (front: seq<Operation>, before: string, after: string, end: Operation, now: Setting)
    ensures PageOperations(lines, number, total) == front + [Show(before, Footer(number, total), after), end]
    ensures Drawing(front, s) == PlacedLines(lines) && End(front, s) == Before(|lines|)
    ensures end.Plain? && LineFeeds(Footer(number, total)) == Footer(number, total)
    ensures Follow(Words(before), Before(|lines|)) == now
    ensures now.font == "/F1" && now.size == 8 && now.x == 50 && now.y == 790 - 14 * |lines|
  {
    front, before, after, end := Opening() + LinesOperations(lines), FOOTER_SHOW, " Tj", Plain("ET");
    LinesAreOpened(lines, s);
    FooterIsSafe(number, total);
    FooterFollows(before, Before(|lines|));
    EndsAt(|lines|, Before(|lines|));
    now := Follow(Words(before), Before(|lines|));
  }

  lemma LinesAreOpened(lines: seq<string>, s: Setting)
    ensures Drawing(Opening() + LinesOperations(lines), s) == PlacedLines(lines)
    ensures End(Opening() + LinesOperations(lines), s) == Before(|lines|)
  {
    OpeningSets(s);
    LinesArePlaced(lines);
    PutTogether(Opening(), LinesOperations(lines), s, Before(0), [], PlacedLines(lines));
    NothingBefore(PlacedLines(lines));
  }

  lemma PutTogether(front: seq<Operation>, back: seq<Operation>, s: Setting, middle: Setting, a: seq<Drawn>,
      b: seq<Drawn>)
    requires End(front, s) == middle && Drawing(front, s) == a && Drawing(back, middle) == b
    ensures Drawing(front + back, s) == a + b && End(front + back, s) == End(back, middle)
  {
    DrawingAppend(front, back, s);
  }

  lemma PageIsClosed(front: seq<Operation>, before: string, after: string, end: Operation, drawn: seq<Drawn>,
      footer: string, s: Setting, ended: Setting, now: Setting)
    requires Drawing(front, s) == drawn && End(front, s) == ended
    requires end.Plain? && LineFeeds(footer) == footer && Follow(Words(before), ended) == now
    ensures Drawing(front + [Show(before, footer, after), end], s) ==
            drawn + [Drawn(footer, now.font, now.size, now.x, now.y)]
  {
    LastIsPlaced(before, footer, after, end, ended, now);
    PutTogether(front, [Show(before, footer, after), end], s, ended, drawn,
        [Drawn(footer, now.font, now.size, now.x, now.y)]);
  }

  lemma EndsAt(n: nat, ended: Setting)
    requires ended == Before(n)
    ensures ended.x == 50 && ended.y - 10 == 790 - 14 * n
  {
  }

  lemma NothingBefore(drawn: seq<Drawn>)
    ensures [] + drawn == drawn
  {
  }

  /** The paper reaches from 0 to 595 and from 0 to 842; a text whose base line is below it cannot be seen. */
  predicate OnPaper(d: Drawn) {
    0 <= d.y <= 842 && 0 <= d.x <= 595
  }

  lemma PlacedOnPaper(lines: seq<string>, footer: string)
    ensures var drawn := PlacedPage(lines, footer);
            && |drawn| == |lines| + 1
            && ((forall i | 0 <= i < |lines| :: OnPaper(drawn[i])) <==> |lines| <= 58)
            && (OnPaper(drawn[|lines|]) <==> |lines| <= 56)
  {
    var drawn, n := PlacedPage(lines, footer), |lines|;
    forall i | 0 <= i < n ensures drawn[i] == PlacedLine(i, lines[i]) {
    }
    if n > 58 {
      assert !OnPaper(drawn[n - 1]);
    }
  }

  /** All lines of a page are on the paper exactly up to 58 of them, and its number exactly up to 56: on a page that is
      filled with the usual 58 lines the number falls off the paper. */
  lemma OnPaperExactlyWhen(lines: seq<string>, number: nat, total: nat, s: Setting)
    ensures var drawn := Drawing(PageOperations(lines, number, total), s);
            && |drawn| == |lines| + 1
            && ((forall i | 0 <= i < |lines| :: OnPaper(drawn[i])) <==> |lines| <= 58)
            && (OnPaper(drawn[|lines|]) <==> |lines| <= 56)
  {
    PageIsPlaced(lines, number, total, s);
    PlacedOnPaper(lines, Footer(number, total));
  }

  /** What page `k` draws last: its number. */
  function NumberDrawn(pages: seq<seq<string>>, k: nat, s: Setting): Drawn
    requires k < |pages|
  {
    OnPaperExactlyWhen(pages[k], k + 1, |pages|, s);
    Drawing(PageOperations(pages[k], k + 1, |pages|), s)[|pages[k]|]
  }

  /** Every page number of a report is on the paper exactly when pages hold at most 56 lines, or when there is one page
      with so few. */
  lemma NumbersOnPaperExactlyWhen(pages: seq<seq<string>>, header: seq<string>, lines: seq<string>, width: nat,
      linesPerPage: int, s: Setting)
    requires width >= 1 && PdfDocument.LaidOut(pages, header, lines, width, linesPerPage)
    ensures (forall k | 0 <= k < |pages| :: OnPaper(NumberDrawn(pages, k, s))) <==>
            linesPerPage <= 56 || (|pages| == 1 && |pages[0]| <= 56)
  {
    forall k | 0 <= k < |pages| ensures OnPaper(NumberDrawn(pages, k, s)) <==> |pages[k]| <= 56 {
      OnPaperExactlyWhen(pages[k], k + 1, |pages|, s);
    }
    if |pages| > 1 {
      assert |pages[0]| == linesPerPage;
    }
  }
}
