/** What cleaning a text leaves of its whitespace, and where it is cut into sentences
    (apps/api/app/documents/chunking.py, `_clean` and `_SENTENCE_BOUNDARY`), told from the texts alone. */
module Cleaning {
  import opened Text
  import opened Chunking

  // ------------------------------------------------------------------- lines

  predicate NoBreak(s: string) {
    forall i | 0 <= i < |s| :: !LineBreak(s[i])
  }

  /** One line break: a carriage return and the line feed after it, or one break character. */
  predicate IsBreak(s: string, after: string) {
    s == "\r\n" || (|s| == 1 && LineBreak(s[0]) && !(s == "\r" && after != "" && after[0] == '\n'))
  }

  /** The text is these lines with a line break after each, but for perhaps the last. */
  ghost predicate HasLines(s: string, lines: seq<string>)
    decreases |lines|
  {
    if lines == [] then s == ""
    else
      && NoBreak(lines[0])
      && if s == lines[0] then lines[0] != "" && |lines| == 1
         else exists b, rest :: IsBreak(b, rest) && s == lines[0] + b + rest && HasLines(rest, lines[1..])
  }

  lemma BreakIsFirst(s: string)
    ensures NoBreak(s[..BreakAt(s)])
  {
    if s != "" && !LineBreak(s[0]) {
      BreakIsFirst(s[1..]);
      assert s[..BreakAt(s)] == [s[0]] + s[1..][..BreakAt(s[1..])];
    }
  }

  /** Splitting gives the lines. */
  lemma {:induction false} LinesExact(s: string)
    ensures HasLines(s, Lines(s))
    decreases |s|
  {
    if s != "" {
      var n := BreakAt(s);
      BreakIsFirst(s);
      if n == |s| {
        assert s[..n] == s;
      } else {
        var k := n + BreakWidth(s, n);
        LinesExact(s[k..]);
        assert s == s[..n] + s[n..k] + s[k..];
        assert IsBreak(s[n..k], s[k..]);
        assert Lines(s)[1..] == Lines(s[k..]);
      }
    }
  }

  // ------------------------------------------------------------------- the whitespace that is left

  /** Whitespace is single blanks and one or two line feeds, and none of it stands at an end. */
  predicate Tidy(s: string) {
    Trimmed(s) && TidyInside(s)
  }

  predicate TidyInside(s: string) {
    && (forall i | 0 <= i < |s| :: IsSpace(s[i]) ==> s[i] == ' ' || s[i] == '\n')
    && (forall i | 0 <= i < |s| - 1 :: TidyPair(s, i))
    && (forall i | 0 <= i < |s| - 2 :: TidyThree(s, i))
  }

  /** Two whitespace characters in a row are line feeds. */
  predicate TidyPair(s: string, i: nat)
    requires i < |s| - 1
  {
    IsSpace(s[i]) && IsSpace(s[i + 1]) ==> s[i] == '\n' && s[i + 1] == '\n'
  }

  /** There are no three. */
  predicate TidyThree(s: string, i: nat)
    requires i < |s| - 2
  {
    IsSpace(s[i]) && IsSpace(s[i + 1]) ==> !IsSpace(s[i + 2])
  }

  /** A line without whitespace at an end and with single blanks only. */
  predicate TidyLine(s: string) {
    && Trimmed(s)
    && (forall i | 0 <= i < |s| && IsSpace(s[i]) :: s[i] == ' ')
    && (forall i | 0 <= i < |s| - 1 :: SingleBlank(s, i))
  }

  predicate SingleBlank(s: string, i: nat)
    requires i < |s| - 1
  {
    IsSpace(s[i]) ==> !IsSpace(s[i + 1])
  }

  lemma {:induction false} JoinedWordsAreTidy(words: seq<string>)
    requires forall w | w in words :: IsWord(w)
    ensures TidyLine(Join(" ", words)) && (Join(" ", words) == "" <==> words == [])
  {
    if |words| >= 2 {
      var rest := Join(" ", words[1..]);
      JoinedWordsAreTidy(words[1..]);
      assert words[0] in words;
      WordThenLine(words[0], rest);
    } else if |words| == 1 {
      assert words[0] in words;
    }
  }

  lemma WordThenLine(word: string, line: string)
    requires IsWord(word) && TidyLine(line) && line != ""
    ensures TidyLine(word + " " + line)
  {
    var s := word + " " + line;
    forall i | 0 <= i < |s| - 1 ensures SingleBlank(s, i) {
      if i > |word| {
        assert s[i] == line[i - |word| - 1] && s[i + 1] == line[i - |word|];
        assert SingleBlank(line, i - |word| - 1);
      }
    }
  }

  /** A text being joined from its front: tidy, but that it may end with one line feed. */
  predicate TidySoFar(s: string) {
    && s != "" && !IsSpace(s[0]) && TidyInside(s)
    && (IsSpace(s[|s| - 1]) ==> s[|s| - 1] == '\n' && |s| >= 2 && !IsSpace(s[|s| - 2]))
  }

  /** Lines of which the first is not empty, and no two in a row are. */
  predicate Spaced(lines: seq<string>) {
    && (forall line | line in lines :: TidyLine(line))
    && (lines != [] ==> lines[0] != "")
    && (forall i | 0 <= i < |lines| - 1 && lines[i] == "" :: lines[i + 1] != "")
  }

  lemma {:induction false} CleanedLinesAreSpaced(lines: seq<string>)
    ensures Spaced(AddLines(lines))
  {
    if lines != [] {
      CleanedLinesAreSpaced(lines[..|lines| - 1]);
      JoinedWordsAreTidy(Words(lines[|lines| - 1]));
    }
  }

  /** One more line feed or visible character keeps a text tidy inside. */
  lemma OneMoreChar(s: string, c: char)
    requires TidySoFar(s) && (c == '\n' || !IsSpace(c))
    ensures TidyInside(s + [c]) && (s + [c])[0] == s[0] && (s + [c])[|s|] == c
  {
    var t, n := s + [c], |s|;
    assert forall i | 0 <= i < n :: t[i] == s[i];
    forall i | 0 <= i < |t| - 1 ensures TidyPair(t, i) {
      assert i < n - 1 ==> TidyPair(s, i);
    }
    forall i | 0 <= i < |t| - 2 ensures TidyThree(t, i) {
      assert i < n - 2 ==> TidyThree(s, i);
      assert i < n - 1 ==> TidyPair(s, i);
    }
  }

  /** A tidy line after a text that is tidy so far and ends in a line feed. */
  lemma LineJoins(s: string, line: string)
    requires s != "" && !IsSpace(s[0]) && TidyInside(s) && s[|s| - 1] == '\n' && TidyLine(line) && line != ""
    ensures TidySoFar(s + line) && !IsSpace((s + line)[|s + line| - 1])
  {
    var t := s + line;
    assert forall i | 0 <= i < |s| :: t[i] == s[i];
    assert forall i | 0 <= i < |line| :: t[|s| + i] == line[i];
    TidyBoth(s, line);
  }

  lemma TidyBoth(s: string, line: string)
    requires s != "" && TidyInside(s) && s[|s| - 1] == '\n' && TidyLine(line) && line != ""
    ensures TidyInside(s + line)
  {
    var t, n := s + line, |s|;
    assert forall i | 0 <= i < n :: t[i] == s[i];
    assert forall i | n <= i < |t| :: t[i] == line[i - n];
    forall i | 0 <= i < |t| - 1 ensures TidyPair(t, i) {
      assert i < n - 1 ==> TidyPair(s, i);
      assert i >= n ==> SingleBlank(line, i - n);
    }
    forall i | 0 <= i < |t| - 2 ensures TidyThree(t, i) {
      assert i < n - 2 ==> TidyThree(s, i);
      assert TidyPair(t, i);
    }
  }

  lemma LineAfter(s: string, line: string)
    requires TidySoFar(s) && TidyLine(line) && (line == "" ==> !IsSpace(s[|s| - 1]))
    ensures var t := s + ("\n" + line);
            TidySoFar(t) && (IsSpace(t[|t| - 1]) <==> line == "")
  {
    OneMoreChar(s, '\n');
    var t := s + ['\n'];
    assert s + ("\n" + line) == t + line;
    if line != "" {
      LineJoins(t, line);
    } else {
      assert t + line == t;
      LineFeedEnds(s, t);
    }
  }

  lemma LineFeedEnds(s: string, t: string)
    requires TidySoFar(s) && !IsSpace(s[|s| - 1]) && t == s + ['\n'] && TidyInside(t)
    ensures TidySoFar(t) && IsSpace(t[|t| - 1])
  {
    assert t[|s| - 1] == s[|s| - 1] && t[|s|] == '\n' && t[0] == s[0];
  }

  lemma LineIsTidy(line: string)
    requires TidyLine(line) && line != ""
    ensures TidySoFar(line) && !IsSpace(line[|line| - 1])
  {
    forall i | 0 <= i < |line| - 1 ensures TidyPair(line, i) {
      assert SingleBlank(line, i);
    }
    forall i | 0 <= i < |line| - 2 ensures TidyThree(line, i) {
      assert SingleBlank(line, i);
    }
  }

  lemma {:induction false} JoinedLinesAreTidy(lines: seq<string>)
    requires Spaced(lines) && lines != []
    ensures var s := Join("\n", lines);
            TidySoFar(s) && (IsSpace(s[|s| - 1]) <==> lines[|lines| - 1] == "")
  {
    var n := |lines| - 1;
    if n == 0 {
      assert lines[0] in lines;
      LineIsTidy(lines[0]);
    } else {
      JoinedLinesAreTidy(lines[..n]);
      assert lines == lines[..n] + [lines[n]] && lines[n] in lines && lines[..n][n - 1] == lines[n - 1];
      JoinSnoc("\n", lines[..n], lines[n]);
      LineAfter(Join("\n", lines[..n]), lines[n]);
    }
  }

  /** The lines that cleaning keeps: a last empty one goes. */
  function Kept(lines: seq<string>): seq<string> {
    if lines != [] && lines[|lines| - 1] == "" then lines[..|lines| - 1] else lines
  }

  lemma LastLineFeedGoes(s: string)
    requires TidySoFar(s) && !IsSpace(s[|s| - 1])
    ensures Strip(s) == s && Strip(s + "\n") == s
  {
    StripTrimmed(s);
    StripBoth(s + "\n", s);
  }

  lemma StripBoth(t: string, s: string)
    requires s != "" && t == s + "\n" && Trimmed(s)
    ensures Strip(t) == s
  {
    assert t[0] == s[0] && LStrip(t) == t && t[|t| - 1] == '\n' && t[..|t| - 1] == s;
  }

  lemma StrippedLines(lines: seq<string>)
    requires Spaced(lines)
    ensures Spaced(Kept(lines)) && Strip(Join("\n", lines)) == Join("\n", Kept(lines))
    ensures Join("\n", Kept(lines)) == "" || TidySoFar(Join("\n", Kept(lines)))
  {
    if lines != [] {
      var n := |lines| - 1;
      if lines[n] == "" {
        assert lines == lines[..n] + [lines[n]] && lines[..n][n - 1] == lines[n - 1];
        JoinedLinesAreTidy(lines[..n]);
        JoinSnoc("\n", lines[..n], lines[n]);
        EmptyLast(Join("\n", lines[..n]));
      } else {
        JoinedLinesAreTidy(lines);
        LastLineFeedGoes(Join("\n", lines));
      }
    }
  }

  lemma EmptyLast(s: string)
    requires TidySoFar(s) && !IsSpace(s[|s| - 1])
    ensures Strip(s + ("\n" + "")) == s
  {
    assert s + ("\n" + "") == s + "\n";
    LastLineFeedGoes(s);
  }

  lemma CleanIsJoined(text: string)
    ensures Spaced(Kept(AddLines(Lines(text)))) && CleanText(text) == Join("\n", Kept(AddLines(Lines(text))))
    ensures CleanText(text) == "" || TidySoFar(CleanText(text))
  {
    CleanedLinesAreSpaced(Lines(text));
    StrippedLines(AddLines(Lines(text)));
  }

  /** Cleaning leaves single blanks and single or double line feeds, none at an end. */
  lemma CleanTextIsTidy(text: string)
    ensures Tidy(CleanText(text))
  {
    CleanIsJoined(text);
    CleanKeepsText(text);
  }

  // ------------------------------------------------------------------- paragraphs

  /** The lines in paragraphs, each line as its words; lines without words part them. */
  function Paragraphs(lines: seq<string>): seq<seq<seq<string>>> {
    if lines == [] then []
    else
      var n := |lines| - 1;
      var front, words := Paragraphs(lines[..n]), Words(lines[n]);
      if words == [] then front
      else if n > 0 && Words(lines[n - 1]) != [] && front != [] then
        front[..|front| - 1] + [front[|front| - 1] + [words]]
      else front + [[words]]
  }

  predicate EndsBlank(lines: seq<string>) {
    lines == [] || Words(lines[|lines| - 1]) == []
  }

  lemma {:induction false} ParagraphsAreThere(lines: seq<string>)
    ensures !EndsBlank(lines) ==> Paragraphs(lines) != []
  {
  }

  lemma WordsOfCollapsed(line: string)
    ensures Words(Join(" ", Words(line))) == Words(line)
  {
    WordsJoin(Words(line));
  }

  lemma {:induction false} AddLinesKeepParagraphs(lines: seq<string>)
    ensures Paragraphs(AddLines(lines)) == Paragraphs(lines) && EndsBlank(AddLines(lines)) == EndsBlank(lines)
  {
    if lines != [] {
      var n := |lines| - 1;
      AddLinesKeepParagraphs(lines[..n]);
      ParagraphsAreThere(lines[..n]);
      JoinedWordsAreTidy(Words(lines[n]));
      WordsOfCollapsed(lines[n]);
      OneMoreLine(AddLines(lines[..n]), lines[n]);
      assert n > 0 ==> lines[..n][n - 1] == lines[n - 1];
    }
  }

  lemma OneMoreLine(cleaned: seq<string>, line: string)
    requires Words(Join(" ", Words(line))) == Words(line) && (Join(" ", Words(line)) == "" <==> Words(line) == [])
    ensures Words(line) == [] ==>
              Paragraphs(AddLine(cleaned, line)) == Paragraphs(cleaned) && EndsBlank(AddLine(cleaned, line))
    ensures Words(line) != [] ==> !EndsBlank(AddLine(cleaned, line))
    ensures Words(line) != [] ==>
              Paragraphs(AddLine(cleaned, line)) ==
              if !EndsBlank(cleaned) && Paragraphs(cleaned) != [] then
                Paragraphs(cleaned)[..|Paragraphs(cleaned)| - 1]
                + [Paragraphs(cleaned)[|Paragraphs(cleaned)| - 1] + [Words(line)]]
              else Paragraphs(cleaned) + [[Words(line)]]
  {
    var added := AddLine(cleaned, line);
    if added != cleaned {
      assert added[..|added| - 1] == cleaned;
    }
    assert Words("") == [];
  }

  lemma {:induction false} LinesOfJoined(lines: seq<string>)
    requires forall line | line in lines :: NoBreak(line)
    requires lines != [] ==> lines[|lines| - 1] != ""
    ensures Lines(Join("\n", lines)) == lines
  {
    if |lines| == 1 {
      assert lines[0] in lines;
      NoBreakIsOneLine(lines[0]);
    } else if |lines| > 1 {
      LinesOfJoined(lines[1..]);
      assert lines[0] in lines;
      LineFirst(lines[0], Join("\n", lines[1..]));
    }
  }

  lemma {:induction false} NoBreakIsOneLine(s: string)
    requires NoBreak(s)
    ensures BreakAt(s) == |s|
  {
    if s != "" {
      NoBreakIsOneLine(s[1..]);
    }
  }

  lemma {:induction false} BreakIsAt(line: string, rest: string)
    requires NoBreak(line)
    ensures BreakAt(line + ("\n" + rest)) == |line|
    decreases |line|
  {
    var s := line + ("\n" + rest);
    if line != "" {
      assert s[1..] == line[1..] + ("\n" + rest);
      BreakIsAt(line[1..], rest);
    }
  }

  lemma LineFirst(line: string, rest: string)
    requires NoBreak(line)
    ensures Lines(line + "\n" + rest) == [line] + Lines(rest)
  {
    var s := line + "\n" + rest;
    assert s == line + ("\n" + rest);
    BreakIsAt(line, rest);
    assert s[|line|] == '\n' && s[..|line|] == line && s[|line| + 1..] == rest;
  }

  lemma TidyLineHasNoBreak(s: string)
    requires TidyLine(s)
    ensures NoBreak(s)
  {
    forall i | 0 <= i < |s| ensures !LineBreak(s[i]) {
      BreakIsSpace(s[i]);
    }
  }

  lemma BreakIsSpace(c: char)
    ensures LineBreak(c) ==> IsSpace(c) && c != ' '
  {
  }

  /** Cleaning keeps the words of each line, and which lines are in one paragraph. */
  lemma CleaningKeepsParagraphs(text: string)
    ensures Paragraphs(Lines(CleanText(text))) == Paragraphs(Lines(text))
  {
    var lines := AddLines(Lines(text));
    CleanIsJoined(text);
    forall line | line in Kept(lines) ensures NoBreak(line) {
      TidyLineHasNoBreak(line);
    }
    CleanedLinesAreSpaced(Lines(text));
    if lines != [] && lines[|lines| - 1] == "" {
      assert lines[|lines| - 2] != "";
      assert Kept(lines)[|Kept(lines)| - 1] == lines[|lines| - 2];
    }
    LinesOfJoined(Kept(lines));
    AddLinesKeepParagraphs(Lines(text));
    assert Words("") == [];
  }

  // ------------------------------------------------------------------- sentences

  predicate EndMark(c: char) {
    c == '.' || c == '!' || c == '?'
  }

  /** Whitespace at which a cleaned text is cut: after an end mark, or a blank line. */
  predicate BoundaryInside(s: string, i: nat)
    requires 0 < i < |s|
  {
    IsSpace(s[i]) && (EndMark(s[i - 1]) || (s[i] == '\n' && i + 1 < |s| && s[i + 1] == '\n'))
  }

  /** A piece that is not cut any further, without whitespace at an end. */
  predicate OneSentence(s: string) {
    s != "" && Trimmed(s) && forall i | 0 < i < |s| :: !BoundaryInside(s, i)
  }

  /** Two pieces with what lies between them. */
  predicate CutBetween(piece: string, gap: string, rest: string) {
    && piece != "" && gap != "" && AllSpace(gap) && rest != "" && !IsSpace(rest[0])
    && (EndMark(piece[|piece| - 1]) || gap == "\n\n")
  }

  /** The text is these sentences with the whitespace between them. */
  ghost predicate HasSentences(text: string, pieces: seq<string>)
    decreases |pieces|
  {
    if pieces == [] then text == ""
    else
      && OneSentence(pieces[0])
      && if text == pieces[0] then |pieces| == 1
         else
           exists gap, rest ::
             text == pieces[0] + gap + rest && CutBetween(pieces[0], gap, rest) && HasSentences(rest, pieces[1..])
  }

  /** No boundary was found from `start` up to `i`. */
  predicate NoneBetween(text: string, start: nat, i: nat)
    requires i <= |text|
  {
    forall j | start < j < i :: BoundaryAt(text, j) == 0
  }

  lemma NewlinesAt(s: string)
    ensures |s| >= 2 && s[0] == '\n' && s[1] == '\n' ==> Newlines(s) >= 2
    ensures Newlines(s) < |s| ==> s[Newlines(s)] != '\n'
  {
    if s != "" && s[0] == '\n' {
      NewlinesAt(s[1..]);
    }
  }

  lemma UncutInside(text: string, start: nat, i: nat)
    requires start < i <= |text| && NoneBetween(text, start, i)
    ensures forall j | 0 < j < i - start :: !BoundaryInside(text[start..i], j)
  {
    forall j | 0 < j < i - start ensures !BoundaryInside(text[start..i], j) {
      var k := start + j;
      assert BoundaryAt(text, k) == 0 && text[k..][0] == text[k];
      NewlinesAt(text[k..]);
    }
  }

  /** What a boundary of a tidy text is. */
  lemma BoundaryIsACut(text: string, start: nat, i: nat)
    requires Tidy(text) && start < i < |text| && BoundaryAt(text, i) > 0
    ensures var n := BoundaryAt(text, i);
            && i + n < |text| && !IsSpace(text[i + n]) && !IsSpace(text[i - 1]) && AllSpace(text[i..i + n])
            && (EndMark(text[i - 1]) || text[i..i + n] == "\n\n")
  {
    var n := BoundaryAt(text, i);
    NotTheEnd(text, i, n);
    if EndMark(text[i - 1]) && IsSpace(text[i]) {
      assert text[i..][n] == text[i + n];
    } else {
      NewlinesAt(text[i..]);
      BlankLine(text, i, n);
    }
  }

  lemma NotTheEnd(text: string, i: nat, n: nat)
    requires Trimmed(text) && n > 0 && i + n <= |text| && AllSpace(text[i..i + n])
    ensures i + n < |text|
  {
    assert text[i..i + n][n - 1] == text[i + n - 1];
  }

  lemma BlankLine(text: string, i: nat, n: nat)
    requires Tidy(text) && 0 < i && n >= 2 && i + n < |text| && text[i + n] != '\n'
    requires forall j | i <= j < i + n :: text[j] == '\n'
    ensures n == 2 && !IsSpace(text[i - 1]) && !IsSpace(text[i + n]) && text[i..i + n] == "\n\n"
  {
    assert TidyThree(text, i) && TidyPair(text, i - 1) && TidyThree(text, i - 1) && TidyPair(text, i + n - 1);
    assert text[i + 1] == '\n';
  }

  lemma {:induction false} SplitExact(text: string, start: nat, i: nat)
    requires Tidy(text) && start <= i <= |text| && start < |text| && !IsSpace(text[start])
    requires NoneBetween(text, start, i)
    ensures HasSentences(text[start..], SplitFrom(text, start, i))
    decreases |text| - i
  {
    if i == |text| {
      LastPiece(text, start);
    } else {
      var n := BoundaryAt(text, i);
      if n == 0 || i == start {
        NothingAtStart(text, start);
        SplitExact(text, start, i + 1);
      } else {
        BoundaryIsACut(text, start, i);
        SplitExact(text, i + n, i + n);
        CutHere(text, start, i, n, SplitFrom(text, i + n, i + n));
      }
    }
  }

  lemma NothingAtStart(text: string, start: nat)
    requires start < |text| && !IsSpace(text[start])
    ensures BoundaryAt(text, start) == 0
  {
    assert text[start..][0] == text[start];
  }

  lemma LastPiece(text: string, start: nat)
    requires Tidy(text) && start < |text| && !IsSpace(text[start]) && NoneBetween(text, start, |text|)
    ensures HasSentences(text[start..], [text[start..]])
  {
    UncutInside(text, start, |text|);
    assert text[start..|text|] == text[start..];
  }

  lemma CutHere(text: string, start: nat, i: nat, n: nat, pieces: seq<string>)
    requires start < i && i + n < |text| && n > 0 && HasSentences(text[i + n..], pieces)
    requires NoneBetween(text, start, i) && !IsSpace(text[start]) && !IsSpace(text[i - 1])
    requires AllSpace(text[i..i + n]) && !IsSpace(text[i + n]) && (EndMark(text[i - 1]) || text[i..i + n] == "\n\n")
    ensures HasSentences(text[start..], [text[start..i]] + pieces)
  {
    UncutInside(text, start, i);
    ThreeParts(text, start, i, i + n);
    var piece, gap, rest := text[start..i], text[i..i + n], text[i + n..];
    assert piece[|piece| - 1] == text[i - 1] && piece[0] == text[start] && rest[0] == text[i + n];
    OneMoreSentence(text[start..], piece, gap, rest, pieces);
  }

  lemma OneMoreSentence(text: string, piece: string, gap: string, rest: string, pieces: seq<string>)
    requires text == piece + gap + rest && OneSentence(piece) && CutBetween(piece, gap, rest)
    requires HasSentences(rest, pieces)
    ensures HasSentences(text, [piece] + pieces)
  {
    assert ([piece] + pieces)[1..] == pieces;
    assert |text| > |piece|;
  }

  lemma {:induction false} SentencesAreVisible(text: string, pieces: seq<string>)
    requires HasSentences(text, pieces)
    ensures Visible(pieces) == pieces && forall p | p in pieces :: OneSentence(p)
    decreases |pieces|
  {
    if pieces != [] {
      if text == pieces[0] {
        assert pieces[1..] == [];
      } else {
        var gap, rest :| text == pieces[0] + gap + rest && CutBetween(pieces[0], gap, rest)
            && HasSentences(rest, pieces[1..]);
        SentencesAreVisible(rest, pieces[1..]);
      }
      assert pieces == [pieces[0]] + pieces[1..];
    }
  }

  /** A cleaned text is cut exactly after end marks and at blank lines, and nowhere else. */
  lemma SentencesExact(text: string)
    ensures HasSentences(CleanText(text), Sentences(CleanText(text)))
    ensures forall p | p in Sentences(CleanText(text)) :: OneSentence(p)
  {
    var cleaned := CleanText(text);
    CleanTextIsTidy(text);
    TidyIsCut(cleaned);
    SentencesAreVisible(cleaned, Sentences(cleaned));
  }

  lemma TidyIsCut(text: string)
    requires Tidy(text)
    ensures HasSentences(text, Sentences(text))
  {
    if text == "" {
      assert SplitFrom(text, 0, 0) == [""] && Visible([""]) == Visible([]);
    } else {
      SplitExact(text, 0, 0);
      assert text[0..] == text;
      SentencesAreVisible(text, SplitFrom(text, 0, 0));
    }
  }
}
