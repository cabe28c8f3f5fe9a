/** Where wrapped lines end (apps/api/app/actions/files.py, `_wrap`): no line ends before it must. */
module Lines {
  import opened Text
  import opened Wrap

  /** A full line cut off a piece that is wider than a line. */
  predicate Slice(line: string, width: nat) {
    |line| == width && ' ' !in line
  }

  /** The next line begins with a piece, up to whitespace, that does not fit behind the line. */
  ghost predicate TooWide(line: string, next: string, width: nat) {
    exists p :: ' ' !in p && Strip(p) <= Strip(next) && |Strip(line + " " + p)| > width
  }

  /** Why a line ends before the next one. */
  ghost predicate Ends(line: string, next: string, width: nat) {
    Slice(line, width) || Slice(next, width) || TooWide(line, next, width)
  }

  /** The lines so far end where they must, and so does the last before the line being filled. */
  ghost predicate EndWhereTheyMust(f: Filling, width: nat) {
    && Narrow(f, width) && (f.current != "" ==> Strip(f.current) != "")
    && AllEnd(f.lines, width) && (f.lines != [] ==> LastEnds(f.lines[|f.lines| - 1], f.current, width))
  }

  ghost predicate AllEnd(lines: seq<string>, width: nat) {
    forall g | 0 < g < |lines| :: Ends(lines[g - 1], lines[g], width)
  }

  ghost predicate LastEnds(last: string, current: string, width: nat) {
    Slice(last, width) || (current != "" && TooWide(last, current, width))
  }

  lemma {:induction false} PiecesHaveNoBlank(s: string)
    ensures forall p | p in SplitSpaces(s) :: ' ' !in p
  {
    if s != "" {
      PiecesHaveNoBlank(s[1..]);
      var rest := SplitSpaces(s[1..]);
      assert rest[0] in rest;
    }
  }

  // ------------------------------------------------------------------- growing lines

  lemma StripFront(a: string, b: string)
    requires LStrip(a) != ""
    ensures LStrip(a + b) == LStrip(a) + b
  {
    var n := LeadingSpace(a);
    assert forall i | 0 <= i < n :: a[..n][i] == (a + b)[i];
    assert (a + b)[n] == a[n];
    LeadingSpaceIs(a + b, n);
    assert (a + b)[n..] == a[n..] + b;
  }

  lemma {:induction false} RStripOfMore(a: string, b: string)
    requires a != "" && !IsSpace(a[|a| - 1])
    ensures a <= RStrip(a + b)
    decreases |b|
  {
    var s := a + b;
    if b == "" {
      assert s == a;
    } else if IsSpace(s[|s| - 1]) {
      assert s[..|s| - 1] == a + b[..|b| - 1];
      RStripOfMore(a, b[..|b| - 1]);
    }
  }

  /** Whatever follows, a stripped text still begins with what its beginning strips to. */
  lemma StripKeepsFront(a: string, b: string)
    ensures Strip(a) <= Strip(a + b)
  {
    if Strip(a) != "" {
      var l, r := LStrip(a), Strip(a);
      StripFront(a, b);
      assert l == r + l[|r|..];
      assert l + b == r + (l[|r|..] + b);
      RStripOfMore(r, l[|r|..] + b);
    }
  }

  lemma StripTwice(s: string)
    ensures Strip(Strip(s)) == Strip(s)
  {
    StripKeepsText(s);
    StripTrimmed(Strip(s));
  }

  lemma LongerIsTooWide(line: string, next: string, more: string, width: nat)
    requires TooWide(line, next, width) && Strip(next) <= Strip(more)
    ensures TooWide(line, more, width)
  {
    var p :| ' ' !in p && Strip(p) <= Strip(next) && |Strip(line + " " + p)| > width;
    assert Strip(p) <= Strip(more);
  }

  lemma BlankAdds(current: string, piece: string)
    requires AllSpace(piece)
    ensures |Strip(current + " " + piece)| <= |current|
  {
    StripOfBlankEnd(current, " " + piece);
    assert current + " " + piece == current + (" " + piece);
  }

  lemma {:induction false} RStripBlank(a: string, b: string)
    requires AllSpace(b)
    ensures RStrip(a + b) == RStrip(a)
    decreases |b|
  {
    if b == "" {
      assert a + b == a;
    } else {
      assert (a + b)[..|a + b| - 1] == a + b[..|b| - 1];
      RStripBlank(a, b[..|b| - 1]);
    }
  }

  lemma StripOfBlankEnd(a: string, b: string)
    requires AllSpace(b)
    ensures |Strip(a + b)| <= |a|
  {
    if LStrip(a) == "" {
      BlankBoth(a, b);
    } else {
      StripFront(a, b);
      RStripBlank(LStrip(a), b);
    }
  }

  lemma BlankBoth(a: string, b: string)
    requires LStrip(a) == "" && AllSpace(b)
    ensures Strip(a + b) == ""
  {
    assert a == a[..LeadingSpace(a)];
    StripEmpty(a + b);
  }

  // ------------------------------------------------------------------- one more piece

  lemma OneMoreLine(lines: seq<string>, line: string, width: nat)
    requires AllEnd(lines, width) && (lines != [] ==> Ends(lines[|lines| - 1], line, width))
    ensures AllEnd(lines + [line], width)
  {
    var all := lines + [line];
    forall g | 0 < g < |all| ensures Ends(all[g - 1], all[g], width) {
      if g < |lines| {
        assert Ends(lines[g - 1], lines[g], width);
      }
    }
  }

  lemma PlacedEnds(f: Filling, piece: string, width: nat)
    requires EndWhereTheyMust(f, width) && |piece| <= width && ' ' !in piece
    ensures EndWhereTheyMust(Placed(f, piece, width), width)
  {
    PlacedWords(f, piece, width);
    var candidate := Strip(f.current + " " + piece);
    if |candidate| > width && f.current != "" {
      NextLine(f, piece, width);
    } else {
      LineGrows(f, piece, candidate, width);
    }
  }

  lemma FrontStays(current: string, piece: string)
    ensures Strip(current) <= Strip(Strip(current + " " + piece))
  {
    StripTwice(current + " " + piece);
    assert current + " " + piece == current + (" " + piece);
    StripKeepsFront(current, " " + piece);
  }

  lemma LastStillEnds(last: string, current: string, more: string, width: nat)
    requires LastEnds(last, current, width) && Strip(current) <= Strip(more) && (current != "" ==> more != "")
    ensures LastEnds(last, more, width)
  {
    if !Slice(last, width) {
      LongerIsTooWide(last, current, more, width);
    }
  }

  lemma LineGrows(f: Filling, piece: string, candidate: string, width: nat)
    requires EndWhereTheyMust(f, width) && candidate == Strip(f.current + " " + piece)
    requires Narrow(Filling(f.lines, candidate), width)
    ensures EndWhereTheyMust(Filling(f.lines, candidate), width)
  {
    FrontStays(f.current, piece);
    StripTwice(f.current + " " + piece);
    if f.lines != [] {
      LastStillEnds(f.lines[|f.lines| - 1], f.current, candidate, width);
    }
  }

  lemma NextLine(f: Filling, piece: string, width: nat)
    requires EndWhereTheyMust(f, width) && f.current != "" && |piece| <= width && ' ' !in piece
    requires |Strip(f.current + " " + piece)| > width
    ensures EndWhereTheyMust(Filling(f.lines + [f.current], piece), width)
  {
    if AllSpace(piece) {
      BlankAdds(f.current, piece);
    }
    StripEmpty(piece);
    assert TooWide(f.current, piece, width);
    OneMoreLine(f.lines, f.current, width);
  }

  /** A slice follows what is being filled. */
  lemma SliceEnds(f: Filling, slice: string, width: nat)
    requires EndWhereTheyMust(f, width) && Slice(slice, width) && width >= 1
    ensures EndWhereTheyMust(Filling(Ended(f) + [slice], ""), width)
  {
    if f.current != "" {
      OneMoreLine(f.lines, f.current, width);
    }
    OneMoreLine(Ended(f), slice, width);
  }

  lemma {:induction false} SlicedEnds(f: Filling, piece: string, width: nat)
    requires width >= 1 && EndWhereTheyMust(f, width) && ' ' !in piece
    ensures EndWhereTheyMust(Sliced(f, piece, width), width) && ' ' !in Remainder(piece, width)
    decreases |piece|
  {
    if |piece| > width {
      SliceEnds(f, piece[..width], width);
      SlicedEnds(Filling(Ended(f) + [piece[..width]], ""), piece[width..], width);
    }
  }

  lemma {:induction false} FilledEnds(pieces: seq<string>, width: nat)
    requires width >= 1 && forall p | p in pieces :: ' ' !in p
    ensures EndWhereTheyMust(Filled(pieces, width), width)
  {
    if pieces != [] {
      var last := pieces[|pieces| - 1];
      var before := Filled(pieces[..|pieces| - 1], width);
      FilledEnds(pieces[..|pieces| - 1], width);
      SlicedEnds(before, last, width);
      PlacedEnds(Sliced(before, last, width), Remainder(last, width), width);
    }
  }

  // ------------------------------------------------------------------- the theorem

  /** Every line but the last ends because it is full with a piece wider than a line, because such a piece follows, or
      because the next piece does not fit behind it. */
  lemma LinesEndWhereTheyMust(text: string, width: nat)
    requires width >= 1
    ensures AllEnd(Wrapped(text, width), width)
  {
    var f := Filled(SplitSpaces(text), width);
    PiecesHaveNoBlank(text);
    FilledEnds(SplitSpaces(text), width);
    if f.current != "" {
      OneMoreLine(f.lines, f.current, width);
    }
  }
}
