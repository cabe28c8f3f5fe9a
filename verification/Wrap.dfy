/** Wrapping report lines to a width and laying them out on pages
    (apps/api/app/actions/files.py, `_wrap` and the paging of `render_pdf`). */
module Wrap {
  import opened Values
  import opened Text

  /** `text.split(" ")`: cut at every single space. */
  function SplitSpaces(s: string): (words: seq<string>)
    ensures words != []
  {
    if s == "" then [""]
    else
      var rest := SplitSpaces(s[1..]);
      if s[0] == ' ' then [""] + rest else [[s[0]] + rest[0]] + rest[1..]
  }

  /** The words of one piece, a piece wider than a line being cut at every full width. */
  function CutWords(piece: string, width: nat): (words: seq<string>)
    requires width >= 1
    ensures |piece| <= width ==> words == Words(piece)
  {
    if |piece| <= width then Words(piece) else Words(piece[..width]) + CutWords(piece[width..], width)
  }

  function AllCutWords(pieces: seq<string>, width: nat): seq<string>
    requires width >= 1
  {
    if pieces == [] then [] else AllCutWords(pieces[..|pieces| - 1], width) + CutWords(pieces[|pieces| - 1], width)
  }

  // ------------------------------------------------------------- which lines are written

  /** The lines so far and the one being filled. */
  datatype Filling = Filling(lines: seq<string>, current: string)

  function Ended(f: Filling): seq<string> {
    if f.current == "" then f.lines else f.lines + [f.current]
  }

  /** Full lines are cut off a piece wider than a line. */
  function Sliced(f: Filling, piece: string, width: nat): Filling
    requires width >= 1
    decreases |piece|
  {
    if |piece| <= width then f else Sliced(Filling(Ended(f) + [piece[..width]], ""), piece[width..], width)
  }

  /** What is left of a piece after that. */
  function Remainder(piece: string, width: nat): (r: string)
    requires width >= 1
    ensures |r| <= width
  {
    if |piece| <= width then piece else Remainder(piece[width..], width)
  }

  /** A piece joins the line being filled if it fits there, and otherwise starts the next one. */
  function Placed(f: Filling, piece: string, width: nat): Filling {
    var candidate := Strip(f.current + " " + piece);
    if |candidate| > width && f.current != "" then Filling(Ended(f), piece) else Filling(f.lines, candidate)
  }

  function Filled(pieces: seq<string>, width: nat): Filling
    requires width >= 1
  {
    if pieces == [] then Filling([], "")
    else
      var last := pieces[|pieces| - 1];
      Placed(Sliced(Filled(pieces[..|pieces| - 1], width), last, width), Remainder(last, width), width)
  }

  /** The lines of a text. */
  function Wrapped(text: string, width: nat): seq<string>
    requires width >= 1
  {
    var lines := Ended(Filled(SplitSpaces(text), width));
    if lines == [] then [""] else lines
  }

  method EndLine(lines0: seq<string>, current: string) returns (lines: seq<string>)
    ensures lines == Ended(Filling(lines0, current))
  {
    lines := lines0;
    if current != "" {
      lines := lines + [current];
    }
  }

  method CutWide(lines0: seq<string>, current0: string, piece0: string, width: nat)
      returns (lines: seq<string>, current: string, piece: string)
    requires width >= 1
    ensures Filling(lines, current) == Sliced(Filling(lines0, current0), piece0, width)
            && piece == Remainder(piece0, width)
  {
    lines, current, piece := lines0, current0, piece0;
    while |piece| > width
      invariant Sliced(Filling(lines, current), piece, width) == Sliced(Filling(lines0, current0), piece0, width)
      invariant Remainder(piece, width) == Remainder(piece0, width)
    {
      lines := EndLine(lines, current);
      lines := lines + [piece[..width]];
      current, piece := "", piece[width..];
    }
  }

  method PlacePiece(lines0: seq<string>, current0: string, piece: string, width: nat)
      returns (lines: seq<string>, current: string)
    ensures Filling(lines, current) == Placed(Filling(lines0, current0), piece, width)
  {
    var candidate := Strip(current0 + " " + piece);
    if |candidate| > width && current0 != "" {
      lines := EndLine(lines0, current0);
      current := piece;
    } else {
      lines, current := lines0, candidate;
    }
  }

  lemma FilledOn(pieces: seq<string>, i: nat, width: nat)
    requires width >= 1 && i < |pieces|
    ensures Filled(pieces[..i + 1], width) == Placed(Sliced(Filled(pieces[..i], width), pieces[i], width),
            Remainder(pieces[i], width), width)
  {
    assert pieces[..i + 1][..i] == pieces[..i];
  }

  /** The lines of a text, none wider than `width`. Its words come out in order, and whole except where one of the
      pieces between single spaces is wider than a line. */
  method WrapText(text: string, width: nat) returns (lines: seq<string>)
    requires width >= 1
    ensures lines == Wrapped(text, width)
    ensures lines != [] && forall line | line in lines :: |line| <= width
    ensures "" in lines ==> lines == [""]
    ensures AllWords(lines) == AllCutWords(SplitSpaces(text), width)
  {
    var pieces := SplitSpaces(text);
    lines := [];
    var current := "";
    for i := 0 to |pieces|
      invariant Filling(lines, current) == Filled(pieces[..i], width)
    {
      FilledOn(pieces, i, width);
      var piece;
      lines, current, piece := CutWide(lines, current, pieces[i], width);
      lines, current := PlacePiece(lines, current, piece, width);
    }
    assert pieces[..|pieces|] == pieces;
    lines := EndLine(lines, current);
    if lines == [] {
      lines := [""];
    }
    WrappedMeaning(text, width);
  }

  // ------------------------------------------------------------- what the lines are

  /** The lines written and the one being filled are narrow enough. */
  predicate Narrow(f: Filling, width: nat) {
    |f.current| <= width && forall line | line in f.lines :: 0 < |line| <= width
  }

  /** The words written and those of the line being filled. */
  function Written(f: Filling): seq<string> {
    AllWords(f.lines) + Words(f.current)
  }

  lemma EndedWords(f: Filling, width: nat)
    requires Narrow(f, width)
    ensures AllWords(Ended(f)) == Written(f) && forall line | line in Ended(f) :: 0 < |line| <= width
  {
    AllWordsSnoc(f.lines, f.current);
    if f.current == "" {
      assert Words("") == [];
    }
  }

  lemma StripCandidate(current: string, word: string)
    ensures Words(Strip(current + " " + word)) == Words(current) + Words(word)
    ensures current == "" ==> |Strip(current + " " + word)| <= |word|
  {
    var text := current + " " + word;
    assert text == current + (" " + word);
    WordsAround(current, " ", word);
    StripKeepsWords(text);
    if current == "" {
      assert text[0] == ' ' && LeadingSpace(text) >= 1;
    }
  }

  lemma {:induction false} SlicedWords(f: Filling, piece: string, width: nat)
    requires width >= 1 && Narrow(f, width)
    ensures Narrow(Sliced(f, piece, width), width)
    ensures Written(Sliced(f, piece, width)) + Words(Remainder(piece, width)) == Written(f) + CutWords(piece, width)
    decreases |piece|
  {
    if |piece| > width {
      var slice, rest := piece[..width], piece[width..];
      var next := Filling(Ended(f) + [slice], "");
      SliceWritten(f, slice, width);
      SlicedWords(next, rest, width);
      Associative(Written(f), Words(slice), CutWords(rest, width));
    }
  }

  lemma SliceWritten(f: Filling, slice: string, width: nat)
    requires Narrow(f, width) && |slice| == width >= 1
    ensures Narrow(Filling(Ended(f) + [slice], ""), width)
    ensures Written(Filling(Ended(f) + [slice], "")) == Written(f) + Words(slice)
  {
    EndedWords(f, width);
    AllWordsSnoc(Ended(f), slice);
    assert Words("") == [];
  }

  lemma PlacedWords(f: Filling, piece: string, width: nat)
    requires Narrow(f, width) && |piece| <= width
    ensures Narrow(Placed(f, piece, width), width) && Written(Placed(f, piece, width)) == Written(f) + Words(piece)
  {
    EndedWords(f, width);
    StripCandidate(f.current, piece);
    Associative(AllWords(f.lines), Words(f.current), Words(piece));
  }

  lemma {:induction false} FilledWords(pieces: seq<string>, width: nat)
    requires width >= 1
    ensures Narrow(Filled(pieces, width), width) && Written(Filled(pieces, width)) == AllCutWords(pieces, width)
  {
    if pieces != [] {
      var last := pieces[|pieces| - 1];
      var before := Filled(pieces[..|pieces| - 1], width);
      FilledWords(pieces[..|pieces| - 1], width);
      SlicedWords(before, last, width);
      PlacedWords(Sliced(before, last, width), Remainder(last, width), width);
    }
  }

  lemma WrappedMeaning(text: string, width: nat)
    requires width >= 1
    ensures var lines := Wrapped(text, width);
            && lines != [] && (forall line | line in lines :: |line| <= width)
            && ("" in lines ==> lines == [""])
            && AllWords(lines) == AllCutWords(SplitSpaces(text), width)
  {
    FilledWords(SplitSpaces(text), width);
    EndedWords(Filled(SplitSpaces(text), width), width);
    AllWordsSnoc([], "");
    assert [] + [""] == [""];
  }

  // ------------------------------------------------------------- what wrapping keeps

  /** `" ".join` puts the pieces of `text.split(" ")` back together. */
  lemma {:induction false} SplitSpacesJoins(s: string)
    ensures Join(" ", SplitSpaces(s)) == s
  {
    if s != "" {
      var rest := SplitSpaces(s[1..]);
      SplitSpacesJoins(s[1..]);
      if s[0] == ' ' {
        assert ([""] + rest)[1..] == rest;
      } else {
        var first := [s[0]] + rest[0];
        assert ([first] + rest[1..])[1..] == rest[1..];
      }
    }
  }

  /** A text whose pieces all fit on a line loses no word and breaks none. */
  lemma {:induction false} NarrowPiecesKeepWords(pieces: seq<string>, width: nat)
    requires width >= 1 && forall p | p in pieces :: |p| <= width
    ensures AllCutWords(pieces, width) == AllWords(pieces)
  {
    if pieces != [] {
      NarrowPiecesKeepWords(pieces[..|pieces| - 1], width);
    }
  }

  lemma {:induction false} AllWordsKeepText(parts: seq<string>)
    ensures NonSpace(Concat(AllWords(parts))) == NonSpace(Concat(parts))
  {
    if parts != [] {
      var front, last := parts[..|parts| - 1], parts[|parts| - 1];
      AllWordsKeepText(front);
      WordsKeepText(last);
      assert parts == front + [last];
      ConcatSnoc(front, last);
      NonSpaceConcat(Concat(front), last);
      ConcatAppend(AllWords(front), Words(last));
      NonSpaceConcat(Concat(AllWords(front)), Concat(Words(last)));
    }
  }

  lemma {:induction false} CutWordsKeepText(piece: string, width: nat)
    requires width >= 1
    ensures NonSpace(Concat(CutWords(piece, width))) == NonSpace(piece)
    decreases |piece|
  {
    if |piece| <= width {
      WordsKeepText(piece);
    } else {
      var first, rest := piece[..width], piece[width..];
      CutWordsKeepText(rest, width);
      WordsKeepText(first);
      NonSpaceCut(piece, width);
      ConcatAppend(Words(first), CutWords(rest, width));
      NonSpaceConcat(Concat(Words(first)), Concat(CutWords(rest, width)));
    }
  }

  lemma {:induction false} AllCutWordsKeepText(pieces: seq<string>, width: nat)
    requires width >= 1
    ensures NonSpace(Concat(AllCutWords(pieces, width))) == NonSpace(Concat(pieces))
  {
    if pieces != [] {
      var front, last := pieces[..|pieces| - 1], pieces[|pieces| - 1];
      AllCutWordsKeepText(front, width);
      CutWordsKeepText(last, width);
      assert pieces == front + [last];
      ConcatSnoc(front, last);
      NonSpaceConcat(Concat(front), last);
      ConcatAppend(AllCutWords(front, width), CutWords(last, width));
      NonSpaceConcat(Concat(AllCutWords(front, width)), Concat(CutWords(last, width)));
    }
  }

  /** Lines that write the words of a text show exactly its visible characters. */
  lemma WrappedLinesKeepText(text: string, width: nat, lines: seq<string>)
    requires width >= 1 && AllWords(lines) == AllCutWords(SplitSpaces(text), width)
    ensures NonSpace(Concat(lines)) == NonSpace(text)
  {
    AllWordsKeepText(lines);
    AllCutWordsKeepText(SplitSpaces(text), width);
    SplitSpacesJoins(text);
    JoinKeepsText(" ", SplitSpaces(text));
  }

  /** ... and exactly its words when every piece fits on a line. */
  lemma WrappedLinesKeepWords(text: string, width: nat, lines: seq<string>)
    requires width >= 1 && AllWords(lines) == AllCutWords(SplitSpaces(text), width)
    requires forall p | p in SplitSpaces(text) :: |p| <= width
    ensures AllWords(lines) == Words(text)
  {
    NarrowPiecesKeepWords(SplitSpaces(text), width);
    WordsOfJoin(" ", SplitSpaces(text));
    SplitSpacesJoins(text);
  }

  // -------------------------------------------------------------------- paging

  const HEADER_LINES: nat := 3

  predicate Headed(page: seq<string>, header: seq<string>) {
    |page| >= |header| && page[..|header|] == header
  }

  /** The lines of the pages without their headers. */
  function Bodies(pages: seq<seq<string>>): seq<string> {
    if pages == [] then [] else Bodies(pages[..|pages| - 1]) + Body(pages[|pages| - 1])
  }

  function Body(page: seq<string>): seq<string> {
    if |page| >= HEADER_LINES then page[HEADER_LINES..] else []
  }

  method AddPage(pages0: seq<seq<string>>, header: seq<string>, lines: seq<string>) returns (pages: seq<seq<string>>)
    requires |header| == HEADER_LINES
    ensures |pages| == |pages0| + 1 && pages[..|pages0|] == pages0
    ensures Headed(pages[|pages0|], header) && Body(pages[|pages0|]) == lines
    ensures Bodies(pages) == Bodies(pages0) + lines
  {
    pages := pages0 + [header + lines];
    assert pages[..|pages0|] == pages0;
  }

  /** Page `k` of `n` carries `size` lines; only the last may carry fewer, and none only when there is no line at
      all. */
  predicate PageFilled(page: seq<string>, k: nat, n: nat, size: nat, body: seq<string>) {
    && |Body(page)| <= size
    && (k + 1 < n ==> |Body(page)| == size)
    && (body != [] ==> |Body(page)| > 0)
  }

  /** Laying wrapped lines out on pages that each start with the header. A page of exactly the header's size is an
      error (the step of the page loop is zero); a smaller one gives no pages. */
  method Paginate(header: seq<string>, body: seq<string>, linesPerPage: int)
      returns (r: Result<seq<seq<string>>, string>)
    requires |header| == HEADER_LINES
    ensures r.Err? <==> linesPerPage == HEADER_LINES
    ensures linesPerPage < HEADER_LINES ==> r == Ok([])
    ensures linesPerPage > HEADER_LINES ==> r.value != [] && Bodies(r.value) == body
    ensures linesPerPage > HEADER_LINES ==> forall k | 0 <= k < |r.value| ::
              Headed(r.value[k], header) && PageFilled(r.value[k], k, |r.value|, linesPerPage - HEADER_LINES, body)
  {
    if linesPerPage == HEADER_LINES {
      return Err("range() arg 3 must not be zero");
    } else if linesPerPage < HEADER_LINES {
      return Ok([]);
    }
    var size := linesPerPage - HEADER_LINES;
    var stop := if |body| > 1 then |body| else 1;
    var pages: seq<seq<string>> := [];
    var start := 0;
    while start < stop
      invariant 0 <= start && (pages == [] ==> start == 0) && (pages != [] && body == [] ==> start >= stop)
      invariant forall k | 0 <= k < |pages| :: Headed(pages[k], header) && PageFilled(pages[k], k, |pages|, size, body)
      invariant start < stop && pages != [] ==> |Body(pages[|pages| - 1])| == size
      invariant Bodies(pages) == body[..if start <= |body| then start else |body|]
      decreases stop - start
    {
      var end := if start + size <= |body| then start + size else |body|;
      assert body[..start] + body[start..end] == body[..end];
      pages := AddPage(pages, header, body[start..end]);
      start := start + size;
    }
    return Ok(pages);
  }
}
