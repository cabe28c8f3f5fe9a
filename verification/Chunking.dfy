/** Splitting extracted text into overlapping chunks that remember where they came from
    (apps/api/app/documents/chunking.py). */
module Chunking {
  import opened Values
  import opened Text

  const HEADING_CHARS: nat := 80

  datatype Section = Section(text: string, page: Option<nat>, locator: string)

  datatype TextChunk = TextChunk(index: nat, text: string, page: Option<nat>, locator: string)

  // ---------------------------------------------------------------- cleaning

  predicate LineBreak(c: char) {
    '\n' <= c <= '\r' || '\U{1C}' <= c <= '\U{1E}' || c == '\U{85}' || c == '\U{2028}' || c == '\U{2029}'
  }

  function BreakAt(s: string): (n: nat)
    ensures n <= |s| && (n < |s| ==> LineBreak(s[n]))
  {
    if s == "" || LineBreak(s[0]) then 0 else 1 + BreakAt(s[1..])
  }

  function BreakWidth(s: string, n: nat): (width: nat)
    requires n < |s| && LineBreak(s[n])
    ensures 1 <= width && n + width <= |s| && AllSpace(s[n..n + width])
  {
    if s[n] == '\r' && n + 1 < |s| && s[n + 1] == '\n' then 2 else 1
  }

  /** `text.splitlines()`; a carriage return and the line feed after it are one break. */
  function Lines(s: string): seq<string> {
    if s == "" then []
    else
      var n := BreakAt(s);
      if n == |s| then [s] else [s[..n]] + Lines(s[n + BreakWidth(s, n)..])
  }

  function AddLine(cleaned: seq<string>, line: string): seq<string> {
    var collapsed := Join(" ", Words(line));
    if collapsed != "" then cleaned + [collapsed]
    else if cleaned != [] && cleaned[|cleaned| - 1] != "" then cleaned + [""]
    else cleaned
  }

  function AddLines(lines: seq<string>): seq<string> {
    if lines == [] then [] else AddLine(AddLines(lines[..|lines| - 1]), lines[|lines| - 1])
  }

  function CleanText(text: string): string {
    Strip(Join("\n", AddLines(Lines(text))))
  }

  method Clean(text: string) returns (r: string)
    ensures r == CleanText(text)
  {
    var cleaned: seq<string> := [];
    var lines := Lines(text);
    for i := 0 to |lines|
      invariant cleaned == AddLines(lines[..i])
    {
      assert lines[..i + 1][..i] == lines[..i];
      var collapsed := Join(" ", Words(lines[i]));
      if collapsed != "" {
        cleaned := cleaned + [collapsed];
      } else if cleaned != [] && cleaned[|cleaned| - 1] != "" {
        cleaned := cleaned + [""];
      }
    }
    assert lines[..|lines|] == lines;
    return Strip(Join("\n", cleaned));
  }

  /** Whitespace between two texts does not show. */
  lemma SpaceBetween(left: string, space: string, right: string)
    requires AllSpace(space)
    ensures NonSpace(left + space + right) == NonSpace(left) + NonSpace(right)
  {
    NonSpaceConcat(left + space, right);
    NonSpaceConcat(left, space);
    NonSpaceOfSpace(space);
  }

  lemma {:induction false} LinesKeepText(s: string)
    ensures NonSpace(Concat(Lines(s))) == NonSpace(s)
    decreases |s|
  {
    if s != "" {
      var n := BreakAt(s);
      if n == |s| {
        ConcatCons(s, []);
        assert [s] + [] == [s] && s + "" == s;
      } else {
        var k := n + BreakWidth(s, n);
        LinesKeepText(s[k..]);
        FirstPart(s, 0, n, k, Lines(s[k..]));
        WholeSlices(s, n);
      }
    }
  }

  lemma WholeSlices(s: string, n: nat)
    requires n <= |s|
    ensures s[0..] == s && s[0..n] == s[..n]
  {
  }

  lemma ThreeParts(s: string, i: nat, j: nat, k: nat)
    requires i <= j <= k <= |s|
    ensures s[i..] == s[i..j] + s[j..k] + s[k..]
  {
  }

  /** A part, the whitespace after it, and parts that keep the rest of the text. */
  lemma FirstPart(s: string, i: nat, j: nat, k: nat, rest: seq<string>)
    requires i <= j <= k <= |s| && AllSpace(s[j..k])
    requires NonSpace(Concat(rest)) == NonSpace(s[k..])
    ensures NonSpace(Concat([s[i..j]] + rest)) == NonSpace(s[i..])
  {
    ThreeParts(s, i, j, k);
    SpaceBetween(s[i..j], s[j..k], s[k..]);
    ConcatCons(s[i..j], rest);
    NonSpaceConcat(s[i..j], Concat(rest));
  }

  lemma ConcatCons(part: string, rest: seq<string>)
    ensures Concat([part] + rest) == part + Concat(rest)
  {
    assert ([part] + rest)[1..] == rest;
  }

  lemma {:induction false} AddLinesKeepText(lines: seq<string>)
    ensures NonSpace(Concat(AddLines(lines))) == NonSpace(Concat(lines))
  {
    if lines != [] {
      var front, last := lines[..|lines| - 1], lines[|lines| - 1];
      AddLinesKeepText(front);
      assert lines == front + [last];
      ConcatSnoc(front, last);
      NonSpaceConcat(Concat(front), last);
      CollapseKeepsText(last);
      var before, collapsed := AddLines(front), Join(" ", Words(last));
      if AddLines(lines) != before {
        ConcatSnoc(before, collapsed);
        NonSpaceConcat(Concat(before), collapsed);
      }
    }
  }

  /** Cleaning drops nothing but whitespace, and leaves none at either end. */
  lemma CleanKeepsText(text: string)
    ensures NonSpace(CleanText(text)) == NonSpace(text) && Trimmed(CleanText(text))
  {
    var cleaned := AddLines(Lines(text));
    LinesKeepText(text);
    AddLinesKeepText(Lines(text));
    JoinKeepsText("\n", cleaned);
    StripKeepsText(Join("\n", cleaned));
  }

  // ----------------------------------------------------- sentence boundaries

  function Newlines(s: string): (n: nat)
    ensures n <= |s| && forall i | 0 <= i < n :: s[i] == '\n'
  {
    if s == "" || s[0] != '\n' then 0 else 1 + Newlines(s[1..])
  }

  /** The length of the boundary that matches at `i`: whitespace after a full stop, question or
      exclamation mark, or two and more newlines. */
  function BoundaryAt(text: string, i: nat): (n: nat)
    requires i < |text|
    ensures i + n <= |text| && AllSpace(text[i..i + n])
  {
    if i > 0 && text[i - 1] in ['.', '!', '?'] && IsSpace(text[i]) then
      var n := LeadingSpace(text[i..]);
      assert text[i..i + n] == text[i..][..n];
      n
    else
      var n := Newlines(text[i..]);
      assert forall j | i <= j < i + n :: text[j] == text[i..][j - i];
      if n >= 2 then n else 0
  }

  function SplitFrom(text: string, start: nat, i: nat): seq<string>
    requires start <= i <= |text|
    decreases |text| - i
  {
    if i == |text| then [text[start..]]
    else
      var n := BoundaryAt(text, i);
      if n == 0 then SplitFrom(text, start, i + 1) else [text[start..i]] + SplitFrom(text, i + n, i + n)
  }

  function Visible(pieces: seq<string>): seq<string> {
    if pieces == [] then [] else (if AllSpace(pieces[0]) then [] else [pieces[0]]) + Visible(pieces[1..])
  }

  /** The pieces between sentence boundaries, blank ones left out. */
  function Sentences(text: string): seq<string> {
    Visible(SplitFrom(text, 0, 0))
  }

  lemma {:induction false} SplitKeepsText(text: string, start: nat, i: nat)
    requires start <= i <= |text|
    ensures NonSpace(Concat(SplitFrom(text, start, i))) == NonSpace(text[start..])
    decreases |text| - i
  {
    if i == |text| {
      ConcatSnoc([], text[start..]);
      assert [] + [text[start..]] == [text[start..]] && Concat([]) + text[start..] == text[start..];
    } else {
      var n := BoundaryAt(text, i);
      if n == 0 {
        SplitKeepsText(text, start, i + 1);
      } else {
        SplitKeepsText(text, i + n, i + n);
        FirstPart(text, start, i, i + n, SplitFrom(text, i + n, i + n));
      }
    }
  }

  lemma {:induction false} VisibleKeepsText(pieces: seq<string>)
    ensures NonSpace(Concat(Visible(pieces))) == NonSpace(Concat(pieces))
    ensures forall p | p in Visible(pieces) :: !AllSpace(p)
  {
    if pieces != [] {
      VisibleKeepsText(pieces[1..]);
      NonSpaceConcat(pieces[0], Concat(pieces[1..]));
      if AllSpace(pieces[0]) {
        NonSpaceOfSpace(pieces[0]);
        assert Visible(pieces) == Visible(pieces[1..]);
      } else {
        assert Visible(pieces)[1..] == Visible(pieces[1..]);
        NonSpaceConcat(pieces[0], Concat(Visible(pieces[1..])));
      }
    }
  }

  lemma SentencesKeepText(text: string)
    ensures NonSpace(Concat(Sentences(text))) == NonSpace(text)
    ensures forall p | p in Sentences(text) :: !AllSpace(p)
  {
    SplitKeepsText(text, 0, 0);
    VisibleKeepsText(SplitFrom(text, 0, 0));
    assert text[0..] == text;
  }

  method Pieces(text: string) returns (pieces: seq<string>)
    ensures pieces == Sentences(CleanText(text))
    ensures NonSpace(Concat(pieces)) == NonSpace(text) && forall p | p in pieces :: !AllSpace(p)
  {
    var cleaned := Clean(text);
    CleanKeepsText(text);
    SentencesKeepText(cleaned);
    pieces := Sentences(cleaned);
  }

  // ------------------------------------------------------ chunks and overlap

  /** A chunk and how many of its first characters repeat the end of the chunk before it. */
  datatype Carried = Carried(chunk: TextChunk, repeated: nat)

  ghost predicate EndsWith(s: string, suffix: string) {
    |suffix| <= |s| && s[|s| - |suffix|..] == suffix
  }

  /** The new text of a chunk. */
  function NewText(c: Carried): string {
    if c.repeated <= |c.chunk.text| then c.chunk.text[c.repeated..] else ""
  }

  /** What the chunks spell when repeated beginnings are dropped. */
  function Spelled(cs: seq<Carried>): string {
    if cs == [] then "" else Spelled(cs[..|cs| - 1]) + NewText(cs[|cs| - 1])
  }

  /** A buffer, or chunk, whose first `carried` characters repeat the end of the last of the chunks before it. */
  ghost predicate Buffered(buffer: string, carried: nat, cs: seq<Carried>, overlapChars: nat) {
    && carried <= |buffer| && carried <= overlapChars
    && (carried > 0 ==> cs != [] && EndsWith(cs[|cs| - 1].chunk.text, buffer[..carried]))
  }

  ghost predicate CutAfter(before: seq<Carried>, c: Carried, first: nat, section: Section, chunkChars: nat,
      overlapChars: nat) {
    && 1 <= |c.chunk.text| <= chunkChars
    && c.chunk == ChunkOf(first + |before|, c.chunk.text, section)
    && Buffered(c.chunk.text, c.repeated, before, overlapChars)
  }

  /** The chunks of one section: sized, located, numbered from `first` and overlapping only as recorded. */
  ghost predicate WellCut(cs: seq<Carried>, first: nat, section: Section, chunkChars: nat, overlapChars: nat) {
    cs != [] ==>
      var before := cs[..|cs| - 1];
      WellCut(before, first, section, chunkChars, overlapChars)
      && CutAfter(before, cs[|cs| - 1], first, section, chunkChars, overlapChars)
  }

  /** Chunks lead back to the page and place of their section, and follow each other by number. */
  lemma {:induction false} ChunksLeadBack(cs: seq<Carried>, first: nat, section: Section, chunkChars: nat,
      overlapChars: nat, i: nat)
    requires WellCut(cs, first, section, chunkChars, overlapChars) && i < |cs|
    ensures cs[i].chunk.page == section.page && cs[i].chunk.locator == section.locator && cs[i].chunk.index == first + i
  {
    if i < |cs| - 1 {
      ChunksLeadBack(cs[..|cs| - 1], first, section, chunkChars, overlapChars, i);
    }
  }

  function ChunkOf(index: nat, text: string, section: Section): TextChunk {
    TextChunk(index, text, section.page, section.locator)
  }

  /** The chunks without the record of what they repeat. */
  function ChunksOf(cs: seq<Carried>): (r: seq<TextChunk>)
    ensures |r| == |cs|
  {
    if cs == [] then [] else ChunksOf(cs[..|cs| - 1]) + [cs[|cs| - 1].chunk]
  }

  lemma SpelledSnoc(cs: seq<Carried>, c: Carried)
    ensures Spelled(cs + [c]) == Spelled(cs) + NewText(c)
  {
    assert (cs + [c])[..|cs|] == cs;
  }

  lemma AllSpaceParts(a: string, b: string)
    ensures AllSpace(a + b) <==> AllSpace(a) && AllSpace(b)
  {
    if AllSpace(a + b) {
      assert forall i | 0 <= i < |a| :: (a + b)[i] == a[i];
      assert forall i | 0 <= i < |b| :: (a + b)[|a| + i] == b[i];
    }
  }

  lemma ConcatSlices(a: string, b: string, k: nat)
    ensures k <= |a| ==> (a + b)[k..] == a[k..] + b && (a + b)[..k] == a[..k]
    ensures |a| <= k <= |a| + |b| ==> (a + b)[k..] == b[k - |a|..] && (a + b)[..k] == a + b[..k - |a|]
  {
  }

  /** Stripping `old + new`, where `new` is not blank: some of `old` may go, no visible character of `new` does. */
  lemma StripCarry(text: string, old_: string, new_: string) returns (left: nat)
    requires text == old_ + new_ && !AllSpace(new_)
    ensures left <= |old_| && left <= |Strip(text)|
    ensures NonSpace(Strip(text)[left..]) == NonSpace(new_)
    ensures EndsWith(old_, Strip(text)[..left])
  {
    var n, l, s := LeadingSpace(text), LStrip(text), Strip(text);
    ConcatSlices(old_, new_, n);
    if n <= |old_| {
      left := |old_| - n;
      StripEnd(old_[n..], new_, s);
    } else {
      left := 0;
      StripKeepsText(text);
      BlankFront(old_, new_[..n - |old_|]);
      NonSpaceConcat(old_, new_);
      assert s[0..] == s;
    }
  }

  lemma BlankFront(a: string, b: string)
    requires AllSpace(a + b)
    ensures NonSpace(a) == ""
  {
    AllSpaceParts(a, b);
    NonSpaceOfSpace(a);
  }

  /** Cutting whitespace off the end never reaches past the last visible character. */
  lemma StripEnd(kept: string, new_: string, s: string)
    requires s == RStrip(kept + new_) && !AllSpace(new_)
    ensures |kept| <= |s| && s[..|kept|] == kept && NonSpace(s[|kept|..]) == NonSpace(new_)
  {
    var l := kept + new_;
    var gone := l[|s|..];
    assert l == s + gone;
    if |s| < |kept| {
      ConcatSlices(kept, new_, |s|);
      AllSpaceParts(kept[|s|..], new_);
    }
    ConcatSlices(s, gone, |kept|);
    ConcatSlices(kept, new_, |kept|);
    LastGone(s[|kept|..], gone, new_);
  }

  lemma LastGone(stays: string, gone: string, both: string)
    requires both[0..] == stays + gone && AllSpace(gone)
    ensures NonSpace(stays) == NonSpace(both)
  {
    assert both[0..] == both;
    NonSpaceConcat(stays, gone);
    NonSpaceOfSpace(gone);
  }

  lemma EndsWithTransitive(s: string, t: string, u: string)
    requires EndsWith(s, t) && EndsWith(t, u)
    ensures EndsWith(s, u)
  {
    assert t[|t| - |u|..] == s[|s| - |t|..][|t| - |u|..];
  }

  /** Adding a piece to the buffer keeps what is carried at its front and gains the piece. */
  lemma PieceAdded(buffer: string, carried: nat, piece: string, cs: seq<Carried>, overlapChars: nat)
      returns (left: nat)
    requires Buffered(buffer, carried, cs, overlapChars) && !AllSpace(piece)
    ensures Strip(buffer + " " + piece) != "" && Buffered(Strip(buffer + " " + piece), left, cs, overlapChars)
    ensures NonSpace(Strip(buffer + " " + piece)[left..]) == NonSpace(buffer[carried..]) + NonSpace(piece)
  {
    var text := buffer + " " + piece;
    var old_, new_ := buffer[..carried], buffer[carried..] + " " + piece;
    assert text == old_ + new_;
    AllSpaceParts(buffer[carried..] + " ", piece);
    left := StripCarry(text, old_, new_);
    SpaceBetween(buffer[carried..], " ", piece);
    StripEmpty(text);
    AllSpaceParts(buffer + " ", piece);
    if left > 0 {
      EndsWithTransitive(cs[|cs| - 1].chunk.text, old_, Strip(text)[..left]);
    }
  }

  /** The state of one section: its chunks so far and a buffer that together spell `visible`. */
  ghost predicate Holds(chunks: seq<TextChunk>, cs: seq<Carried>, buffer: string, carried: nat, visible: string,
                        first: nat, section: Section, chunkChars: nat, overlapChars: nat)
  {
    && chunks == ChunksOf(cs) && WellCut(cs, first, section, chunkChars, overlapChars)
    && Buffered(buffer, carried, cs, overlapChars)
    && NonSpace(Spelled(cs)) + NonSpace(buffer[carried..]) == visible
  }

  lemma EmittedText(cs: seq<Carried>, last: Carried, buffer: string, cut: nat)
    requires last.repeated <= cut <= |buffer| && last.chunk.text == buffer[..cut]
    ensures NonSpace(Spelled(cs + [last])) + NonSpace(buffer[cut..]) == NonSpace(Spelled(cs))
            + NonSpace(buffer[last.repeated..])
  {
    SpelledSnoc(cs, last);
    SliceAfter(buffer, last.repeated, cut);
    Regroup(Spelled(cs), NewText(last), buffer[cut..]);
  }

  lemma SliceAfter(s: string, i: nat, j: nat)
    requires i <= j <= |s|
    ensures s[i..] == s[..j][i..] + s[j..]
  {
  }

  lemma Regroup(a: string, b: string, c: string)
    ensures NonSpace(a + b) + NonSpace(c) == NonSpace(a) + NonSpace(b + c)
  {
    NonSpaceConcat(a, b);
    NonSpaceConcat(b, c);
  }

  lemma EmittedCut(cs: seq<Carried>, last: Carried, buffer: string, cut: nat, first: nat, section: Section,
      chunkChars: nat, overlapChars: nat)
    requires WellCut(cs, first, section, chunkChars, overlapChars) && Buffered(buffer, last.repeated, cs, overlapChars)
    requires 1 <= cut <= |buffer| && cut <= chunkChars && last.repeated <= cut
    requires last.chunk == ChunkOf(first + |cs|, buffer[..cut], section)
    ensures WellCut(cs + [last], first, section, chunkChars, overlapChars)
    ensures ChunksOf(cs + [last]) == ChunksOf(cs) + [last.chunk]
  {
    assert (cs + [last])[..|cs|] == cs;
    assert buffer[..cut][..last.repeated] == buffer[..last.repeated];
  }

  /** Emitting the first `cut` characters of the buffer: the chunk spells the buffer's new text up to there. */
  lemma Emitted(chunks: seq<TextChunk>, cs: seq<Carried>, buffer: string, carried: nat, visible: string,
                first: nat, section: Section, chunkChars: nat, overlapChars: nat, cut: nat, next: string, repeated: nat,
                chunk: TextChunk)
    requires Holds(chunks, cs, buffer, carried, visible, first, section, chunkChars, overlapChars)
    requires 1 <= cut <= |buffer| && cut <= chunkChars && carried <= cut
    requires chunk == ChunkOf(first + |chunks|, buffer[..cut], section)
    requires repeated <= overlapChars && repeated <= |next| && next[repeated..] == buffer[cut..]
    requires EndsWith(buffer[..cut], next[..repeated])
    ensures Holds(chunks + [chunk], cs + [Carried(chunk, carried)], next, repeated, visible, first, section,
            chunkChars, overlapChars)
  {
    EmittedText(cs, Carried(chunk, carried), buffer, cut);
    EmittedCut(cs, Carried(chunk, carried), buffer, cut, first, section, chunkChars, overlapChars);
  }

  function Tail(buffer: string, overlapChars: nat): string {
    if |buffer| <= overlapChars then buffer else buffer[|buffer| - overlapChars..]
  }

  // ------------------------------------------------------ what is gathered

  /** The texts of the chunks so far and the buffer. */
  datatype Filling = Filling(texts: seq<string>, buffer: string)

  function TextsOf(chunks: seq<TextChunk>): (texts: seq<string>)
    ensures |texts| == |chunks|
  {
    seq(|chunks|, i requires 0 <= i < |chunks| => chunks[i].text)
  }

  function Drained(f: Filling, chunkChars: nat, overlapChars: nat): Filling
    requires overlapChars < chunkChars
    decreases |f.buffer|
  {
    if |f.buffer| <= chunkChars then f
    else Drained(Filling(f.texts + [f.buffer[..chunkChars]], f.buffer[chunkChars - overlapChars..]), chunkChars,
        overlapChars)
  }

  function Joined(buffer: string, piece: string): string {
    if buffer != "" then Strip(buffer + " " + piece) else Strip(piece)
  }

  function Gathered(f: Filling, piece: string, chunkChars: nat, overlapChars: nat): Filling
    requires overlapChars < chunkChars
  {
    var candidate := Joined(f.buffer, piece);
    Drained(if |candidate| <= chunkChars || |f.buffer| < HEADING_CHARS then Filling(f.texts, candidate)
            else Filling(f.texts + [f.buffer], Joined(Tail(f.buffer, overlapChars), piece)),
            chunkChars, overlapChars)
  }

  function Filled(pieces: seq<string>, chunkChars: nat, overlapChars: nat): Filling
    requires overlapChars < chunkChars
  {
    if pieces == [] then Filling([], "")
    else Gathered(Filled(pieces[..|pieces| - 1], chunkChars, overlapChars), pieces[|pieces| - 1], chunkChars,
        overlapChars)
  }

  function Flushed(f: Filling): seq<string> {
    if f.buffer == "" then f.texts else f.texts + [f.buffer]
  }

  /** The chunk texts of a section without a limit. */
  function SectionTexts(text: string, chunkChars: nat, overlapChars: nat): seq<string>
    requires overlapChars < chunkChars
  {
    Flushed(Filled(Sentences(CleanText(text)), chunkChars, overlapChars))
  }

  lemma {:induction false} DrainedMore(f: Filling, chunkChars: nat, overlapChars: nat)
    requires overlapChars < chunkChars
    ensures f.texts <= Drained(f, chunkChars, overlapChars).texts
    decreases |f.buffer|
  {
    if |f.buffer| > chunkChars {
      DrainedMore(Filling(f.texts + [f.buffer[..chunkChars]], f.buffer[chunkChars - overlapChars..]), chunkChars,
          overlapChars);
    }
  }

  lemma GatheredMore(f: Filling, piece: string, chunkChars: nat, overlapChars: nat)
    requires overlapChars < chunkChars
    ensures f.texts <= Gathered(f, piece, chunkChars, overlapChars).texts
  {
    var candidate := Joined(f.buffer, piece);
    DrainedMore(Filling(f.texts, candidate), chunkChars, overlapChars);
    DrainedMore(Filling(f.texts + [f.buffer], Joined(Tail(f.buffer, overlapChars), piece)), chunkChars, overlapChars);
  }

  /** The chunks that the first pieces fill stay when more pieces come. */
  lemma {:induction false} FilledMore(pieces: seq<string>, i: nat, chunkChars: nat, overlapChars: nat)
    requires overlapChars < chunkChars && i <= |pieces|
    ensures Filled(pieces[..i], chunkChars, overlapChars).texts <= Filled(pieces, chunkChars, overlapChars).texts
  {
    if i == |pieces| {
      assert pieces[..i] == pieces;
    } else {
      var n := |pieces| - 1;
      assert pieces[..n][..i] == pieces[..i];
      FilledMore(pieces[..n], i, chunkChars, overlapChars);
      GatheredMore(Filled(pieces[..n], chunkChars, overlapChars), pieces[n], chunkChars, overlapChars);
    }
  }

  lemma FilledOn(pieces: seq<string>, i: nat, chunkChars: nat, overlapChars: nat)
    requires overlapChars < chunkChars && i < |pieces|
    ensures Filled(pieces[..i + 1], chunkChars, overlapChars) ==
            Gathered(Filled(pieces[..i], chunkChars, overlapChars), pieces[i], chunkChars, overlapChars)
  {
    assert pieces[..i + 1][..i] == pieces[..i];
  }

  lemma OneMoreText(chunks: seq<TextChunk>, chunk: TextChunk)
    ensures TextsOf(chunks + [chunk]) == TextsOf(chunks) + [chunk.text]
  {
  }

  // ------------------------------------------------------ gathering

  /** Cutting full chunks off a long buffer, each new buffer keeping the overlap. */
  method Drain(buffer0: string, ghost carried0: nat, done: seq<TextChunk>, ghost cs0: seq<Carried>,
               first: nat, section: Section, chunkChars: nat, overlapChars: nat, ghost visible: string)
      returns (chunks: seq<TextChunk>, buffer: string, ghost carried: nat, ghost cs: seq<Carried>)
    requires overlapChars < chunkChars && buffer0 != ""
    requires Holds(done, cs0, buffer0, carried0, visible, first, section, chunkChars, overlapChars)
    ensures 0 < |buffer| <= chunkChars && |chunks| >= |done|
    ensures Holds(chunks, cs, buffer, carried, visible, first, section, chunkChars, overlapChars)
    ensures Filling(TextsOf(chunks), buffer) == Drained(Filling(TextsOf(done), buffer0), chunkChars, overlapChars)
  {
    buffer, chunks, carried, cs := buffer0, done, carried0, cs0;
    while |buffer| > chunkChars
      invariant buffer != "" && |chunks| >= |done|
      invariant Drained(Filling(TextsOf(chunks), buffer), chunkChars, overlapChars) ==
                Drained(Filling(TextsOf(done), buffer0), chunkChars, overlapChars)
      invariant Holds(chunks, cs, buffer, carried, visible, first, section, chunkChars, overlapChars)
      decreases |buffer|
    {
      var chunk := ChunkOf(first + |chunks|, buffer[..chunkChars], section);
      var next := buffer[chunkChars - overlapChars..];
      Overlap(buffer, chunkChars, overlapChars);
      Emitted(chunks, cs, buffer, carried, visible, first, section, chunkChars, overlapChars, chunkChars, next,
          overlapChars, chunk);
      OneMoreText(chunks, chunk);
      chunks, cs := chunks + [chunk], cs + [Carried(chunk, carried)];
      buffer, carried := next, overlapChars;
    }
  }

  lemma Overlap(buffer: string, chunkChars: nat, overlapChars: nat)
    requires overlapChars < chunkChars < |buffer|
    ensures var next := buffer[chunkChars - overlapChars..];
            && next[overlapChars..] == buffer[chunkChars..]
            && EndsWith(buffer[..chunkChars], next[..overlapChars])
  {
  }

  lemma StripAfterSpace(piece: string)
    ensures Strip("" + " " + piece) == Strip(piece)
  {
    var text := " " + piece;
    assert "" + " " + piece == text && text[1..] == piece;
    assert text[1 + LeadingSpace(piece)..] == piece[LeadingSpace(piece)..];
  }

  /** The buffer with one more piece: what it repeats in front stays a repetition, what it spells grows by the piece. */
  method WithPiece(buffer: string, piece: string, ghost carried: nat, ghost cs: seq<Carried>, ghost overlapChars: nat)
      returns (candidate: string, ghost left: nat)
    requires Buffered(buffer, carried, cs, overlapChars) && !AllSpace(piece)
    ensures candidate == Joined(buffer, piece) != "" && Buffered(candidate, left, cs, overlapChars)
    ensures NonSpace(candidate[left..]) == NonSpace(buffer[carried..]) + NonSpace(piece)
  {
    StripAfterSpace(piece);
    left := PieceAdded(buffer, carried, piece, cs, overlapChars);
    candidate := if buffer != "" then Strip(buffer + " " + piece) else Strip(piece);
  }

  lemma Grown(chunks: seq<TextChunk>, cs: seq<Carried>, buffer: string, carried: nat, visible: string,
              first: nat, section: Section, chunkChars: nat, overlapChars: nat, next: string, left: nat, more: string)
    requires Holds(chunks, cs, buffer, carried, visible, first, section, chunkChars, overlapChars)
    requires Buffered(next, left, cs, overlapChars) && NonSpace(next[left..]) == NonSpace(buffer[carried..]) + more
    ensures Holds(chunks, cs, next, left, visible + more, first, section, chunkChars, overlapChars)
  {
    Associates(NonSpace(Spelled(cs)), NonSpace(buffer[carried..]), more);
  }

  lemma Associates(a: string, b: string, c: string)
    ensures (a + b) + c == a + (b + c)
  {
  }

  /** The whole buffer becomes a chunk; what starts the next one is all of it a repetition. */
  method Emit(buffer: string, ghost carried: nat, done: seq<TextChunk>, ghost cs0: seq<Carried>, first: nat,
      section: Section,
              ghost chunkChars: nat, ghost overlapChars: nat, ghost visible: string, ghost tail: string)
      returns (chunks: seq<TextChunk>, ghost cs: seq<Carried>)
    requires Holds(done, cs0, buffer, carried, visible, first, section, chunkChars, overlapChars)
    requires 1 <= |buffer| <= chunkChars && |tail| <= overlapChars && EndsWith(buffer, tail)
    ensures |chunks| > |done| && TextsOf(chunks) == TextsOf(done) + [buffer]
    ensures Holds(chunks, cs, tail, |tail|, visible, first, section, chunkChars, overlapChars)
  {
    var chunk := ChunkOf(first + |done|, buffer, section);
    WholeAndNothing(buffer);
    WholeAndNothing(tail);
    Emitted(done, cs0, buffer, carried, visible, first, section, chunkChars, overlapChars, |buffer|, tail, |tail|,
        chunk);
    OneMoreText(done, chunk);
    chunks, cs := done + [chunk], cs0 + [Carried(chunk, carried)];
  }

  /** One piece of the text: it joins the buffer, or the buffer is emitted and its tail starts the next one. */
  method Gather(piece: string, buffer0: string, ghost carried0: nat, done: seq<TextChunk>, ghost cs0: seq<Carried>,
                first: nat, section: Section, chunkChars: nat, overlapChars: nat, ghost visible: string)
      returns (chunks: seq<TextChunk>, buffer: string, ghost carried: nat, ghost cs: seq<Carried>)
    requires overlapChars < chunkChars && |buffer0| <= chunkChars && !AllSpace(piece)
    requires Holds(done, cs0, buffer0, carried0, visible, first, section, chunkChars, overlapChars)
    ensures 0 < |buffer| <= chunkChars && |chunks| >= |done|
    ensures Holds(chunks, cs, buffer, carried, visible + NonSpace(piece), first, section, chunkChars, overlapChars)
    ensures Filling(TextsOf(chunks), buffer) == Gathered(Filling(TextsOf(done), buffer0), piece, chunkChars,
            overlapChars)
  {
    chunks, cs := done, cs0;
    buffer, carried := WithPiece(buffer0, piece, carried0, cs, overlapChars);
    if |buffer| <= chunkChars || |buffer0| < HEADING_CHARS {
      Grown(chunks, cs, buffer0, carried0, visible, first, section, chunkChars, overlapChars, buffer, carried,
          NonSpace(piece));
    } else {
      var tail := Tail(buffer0, overlapChars);
      chunks, cs := Emit(buffer0, carried0, chunks, cs, first, section, chunkChars, overlapChars, visible, tail);
      buffer, carried := WithPiece(tail, piece, |tail|, cs, overlapChars);
      Grown(chunks, cs, tail, |tail|, visible, first, section, chunkChars, overlapChars, buffer, carried,
          NonSpace(piece));
    }
    assert Gathered(Filling(TextsOf(done), buffer0), piece, chunkChars, overlapChars) ==
        Drained(Filling(TextsOf(chunks), buffer), chunkChars, overlapChars);
    chunks, buffer, carried, cs := Drain(buffer, carried, chunks, cs, first, section, chunkChars, overlapChars,
        visible + NonSpace(piece));
  }

  lemma WholeAndNothing(s: string)
    ensures s[..|s|] == s && s[|s|..] == ""
  {
  }

  /** The visible text of the first `i` pieces. */
  ghost function Seen(pieces: seq<string>, i: nat): string
    requires i <= |pieces|
  {
    NonSpace(Concat(pieces[..i]))
  }

  lemma SeenMore(pieces: seq<string>, i: nat)
    requires i < |pieces|
    ensures Seen(pieces, i + 1) == Seen(pieces, i) + NonSpace(pieces[i])
  {
    assert pieces[..i + 1] == pieces[..i] + [pieces[i]];
    ConcatSnoc(pieces[..i], pieces[i]);
    NonSpaceConcat(Concat(pieces[..i]), pieces[i]);
  }

  lemma SeenAll(pieces: seq<string>)
    ensures Seen(pieces, |pieces|) == NonSpace(Concat(pieces))
  {
    assert pieces[..|pieces|] == pieces;
  }

  lemma SeenIsPrefix(pieces: seq<string>, i: nat)
    requires i <= |pieces|
    ensures Seen(pieces, i) <= NonSpace(Concat(pieces))
  {
    assert pieces == pieces[..i] + pieces[i..];
    ConcatAppend(pieces[..i], pieces[i..]);
    NonSpaceConcat(Concat(pieces[..i]), Concat(pieces[i..]));
  }

  /** The chunks of a section spell a beginning of its visible text. */
  ghost predicate SpellsPart(cs: seq<Carried>, section: Section) {
    NonSpace(Spelled(cs)) <= NonSpace(section.text)
  }

  /** The chunks of a section spell all of its visible text. */
  ghost predicate SpellsAll(cs: seq<Carried>, section: Section) {
    NonSpace(Spelled(cs)) == NonSpace(section.text)
  }

  lemma PartSpelled(chunks: seq<TextChunk>, cs: seq<Carried>, buffer: string, carried: nat, visible: string,
                    first: nat, section: Section, chunkChars: nat, overlapChars: nat)
    requires Holds(chunks, cs, buffer, carried, visible, first, section, chunkChars, overlapChars)
    requires visible <= NonSpace(section.text)
    ensures SpellsPart(cs, section)
  {
    PrefixOfPrefix(NonSpace(Spelled(cs)), NonSpace(buffer[carried..]), visible, NonSpace(section.text));
  }

  lemma PrefixOfPrefix(a: string, b: string, ab: string, s: string)
    requires ab == a + b && ab <= s
    ensures a <= s
  {
  }

  lemma AllSpelled(chunks: seq<TextChunk>, cs: seq<Carried>, buffer: string, carried: nat, visible: string,
                   first: nat, section: Section, chunkChars: nat, overlapChars: nat)
    requires Holds(chunks, cs, buffer, carried, visible, first, section, chunkChars, overlapChars)
    requires visible == NonSpace(section.text) && buffer == ""
    ensures SpellsPart(cs, section) && SpellsAll(cs, section)
  {
    Nothing(NonSpace(Spelled(cs)), NonSpace(buffer[carried..]));
  }

  lemma Nothing(a: string, b: string)
    requires b == ""
    ensures a + b == a
  {
  }

  /** The last buffer of a section becomes its last chunk. */
  method Flush(buffer: string, ghost carried: nat, done: seq<TextChunk>, ghost cs0: seq<Carried>, first: nat,
               section: Section, ghost chunkChars: nat, ghost overlapChars: nat, ghost visible: string)
      returns (chunks: seq<TextChunk>, ghost cs: seq<Carried>)
    requires |buffer| <= chunkChars && visible == NonSpace(section.text)
    requires Holds(done, cs0, buffer, carried, visible, first, section, chunkChars, overlapChars)
    ensures chunks == ChunksOf(cs) && WellCut(cs, first, section, chunkChars, overlapChars)
    ensures SpellsPart(cs, section) && SpellsAll(cs, section)
    ensures TextsOf(chunks) == Flushed(Filling(TextsOf(done), buffer))
  {
    chunks, cs := done, cs0;
    ghost var left := carried;
    if buffer != "" {
      chunks, cs := Emit(buffer, carried, chunks, cs, first, section, chunkChars, overlapChars, visible, "");
      left := 0;
    }
    AllSpelled(chunks, cs, "", left, visible, first, section, chunkChars, overlapChars);
  }

  lemma NothingGathered(pieces: seq<string>, first: nat, section: Section, chunkChars: nat, overlapChars: nat)
    requires overlapChars < chunkChars
    ensures Going([], [], "", 0, pieces, 0, first, section, chunkChars, overlapChars)
  {
    assert pieces[..0] == [];
  }

  /** After the first `i` pieces: the chunks so far and the buffer spell them, and are what they fill. */
  ghost predicate Going(chunks: seq<TextChunk>, cs: seq<Carried>, buffer: string, carried: nat, pieces: seq<string>,
      i: nat,
                        first: nat, section: Section, chunkChars: nat, overlapChars: nat)
    requires i <= |pieces| && overlapChars < chunkChars
  {
    && |buffer| <= chunkChars
    && Holds(chunks, cs, buffer, carried, Seen(pieces, i), first, section, chunkChars, overlapChars)
    && Filling(TextsOf(chunks), buffer) == Filled(pieces[..i], chunkChars, overlapChars)
  }

  method GatherNext(pieces: seq<string>, i: nat, buffer0: string, ghost carried0: nat, done: seq<TextChunk>,
      ghost cs0: seq<Carried>,
                    first: nat, section: Section, chunkChars: nat, overlapChars: nat)
      returns (chunks: seq<TextChunk>, buffer: string, ghost carried: nat, ghost cs: seq<Carried>)
    requires i < |pieces| && overlapChars < chunkChars && forall p | p in pieces :: !AllSpace(p)
    requires Going(done, cs0, buffer0, carried0, pieces, i, first, section, chunkChars, overlapChars)
    ensures Going(chunks, cs, buffer, carried, pieces, i + 1, first, section, chunkChars, overlapChars)
  {
    FilledOn(pieces, i, chunkChars, overlapChars);
    SeenMore(pieces, i);
    chunks, buffer, carried, cs := Gather(pieces[i], buffer0, carried0, done, cs0, first, section, chunkChars,
        overlapChars, Seen(pieces, i));
  }

  /** The chunk texts of a section, a beginning of them when the limit stopped it. */
  predicate TextsFit(chunks: seq<TextChunk>, section: Section, chunkChars: nat, overlapChars: nat, whole: bool)
    requires overlapChars < chunkChars
  {
    var texts := SectionTexts(section.text, chunkChars, overlapChars);
    if whole then TextsOf(chunks) == texts else TextsOf(chunks) <= texts
  }

  lemma StoppedTexts(chunks: seq<TextChunk>, cs: seq<Carried>, buffer: string, carried: nat, pieces: seq<string>,
      i: nat,
                     first: nat, section: Section, chunkChars: nat, overlapChars: nat)
    requires i <= |pieces| && overlapChars < chunkChars
    requires Going(chunks, cs, buffer, carried, pieces, i, first, section, chunkChars, overlapChars)
    requires pieces == Sentences(CleanText(section.text)) && NonSpace(Concat(pieces)) == NonSpace(section.text)
    ensures Fits(cs, first, section, chunkChars, overlapChars, false)
  {
    SeenIsPrefix(pieces, i);
    PartSpelled(chunks, cs, buffer, carried, Seen(pieces, i), first, section, chunkChars, overlapChars);
    FilledMore(pieces, i, chunkChars, overlapChars);
  }

  /** A section is stopped by the first sentence that brings the chunks to the limit, and by no other. */
  ghost predicate Stops(texts: seq<string>, section: Section, first: nat, chunkChars: nat, overlapChars: nat,
      maxChunks: int, whole: bool)
    requires overlapChars < chunkChars
  {
    var pieces := Sentences(CleanText(section.text));
    if whole then pieces == [] || first + |Filled(pieces, chunkChars, overlapChars).texts| < maxChunks
    else exists i: nat :: i < |pieces| && StopsAt(texts, pieces, i, first, chunkChars, overlapChars, maxChunks)
  }

  ghost predicate StopsAt(texts: seq<string>, pieces: seq<string>, i: nat, first: nat, chunkChars: nat,
      overlapChars: nat, maxChunks: int)
    requires overlapChars < chunkChars && i < |pieces|
  {
    && texts == Filled(pieces[..i + 1], chunkChars, overlapChars).texts && first + |texts| >= maxChunks
    && (i == 0 || first + |Filled(pieces[..i], chunkChars, overlapChars).texts| < maxChunks)
  }

  /** The sentence that brings the chunks to the limit. */
  lemma StoppedNow(chunks: seq<TextChunk>, cs: seq<Carried>, buffer: string, carried: nat, before: seq<TextChunk>,
      cs0: seq<Carried>, buffer0: string, carried0: nat, pieces: seq<string>, i: nat, first: nat, section: Section,
      chunkChars: nat, overlapChars: nat, maxChunks: int)
    requires i < |pieces| && overlapChars < chunkChars
    requires Going(before, cs0, buffer0, carried0, pieces, i, first, section, chunkChars, overlapChars)
    requires Going(chunks, cs, buffer, carried, pieces, i + 1, first, section, chunkChars, overlapChars)
    requires pieces == Sentences(CleanText(section.text)) && NonSpace(Concat(pieces)) == NonSpace(section.text)
    requires first + |chunks| >= maxChunks && (i == 0 || first + |before| < maxChunks)
    ensures chunks == ChunksOf(cs) && Fits(cs, first, section, chunkChars, overlapChars, false)
    ensures Stops(TextsOf(chunks), section, first, chunkChars, overlapChars, maxChunks, false)
  {
    StoppedTexts(chunks, cs, buffer, carried, pieces, i + 1, first, section, chunkChars, overlapChars);
    assert StopsAt(TextsOf(chunks), pieces, i, first, chunkChars, overlapChars, maxChunks);
  }

  /** The end of a section that the limit has not stopped. */
  method FlushSection(buffer: string, ghost carried: nat, done: seq<TextChunk>, ghost cs0: seq<Carried>,
      ghost pieces: seq<string>, first: nat, section: Section, ghost chunkChars: nat, ghost overlapChars: nat,
      ghost maxChunks: int)
      returns (chunks: seq<TextChunk>, ghost cs: seq<Carried>)
    requires overlapChars < chunkChars
    requires Going(done, cs0, buffer, carried, pieces, |pieces|, first, section, chunkChars, overlapChars)
    requires pieces == Sentences(CleanText(section.text)) && NonSpace(Concat(pieces)) == NonSpace(section.text)
    requires pieces == [] || first + |done| < maxChunks
    ensures chunks == ChunksOf(cs) && Fits(cs, first, section, chunkChars, overlapChars, true)
    ensures Stops(TextsOf(chunks), section, first, chunkChars, overlapChars, maxChunks, true)
  {
    SeenAll(pieces);
    assert pieces[..|pieces|] == pieces;
    chunks, cs := Flush(buffer, carried, done, cs0, first, section, chunkChars, overlapChars, Seen(pieces, |pieces|));
  }

  /** One section: cleaned, cut into sentences, gathered into chunks. `full` says the limit stopped it early. */
  method ChunkSection(section: Section, first: nat, chunkChars: nat, overlapChars: nat, maxChunks: int)
      returns (chunks: seq<TextChunk>, full: bool, ghost cs: seq<Carried>)
    requires overlapChars < chunkChars
    ensures chunks == ChunksOf(cs) && Fits(cs, first, section, chunkChars, overlapChars, !full)
    ensures full ==> first + |chunks| >= maxChunks
    ensures Stops(TextsOf(chunks), section, first, chunkChars, overlapChars, maxChunks, !full)
  {
    chunks, full, cs := [], false, [];
    var pieces := Pieces(section.text);
    var buffer := "";
    ghost var carried := 0;
    NothingGathered(pieces, first, section, chunkChars, overlapChars);
    for i := 0 to |pieces|
      invariant Going(chunks, cs, buffer, carried, pieces, i, first, section, chunkChars, overlapChars)
      invariant i == 0 || first + |chunks| < maxChunks
    {
      ghost var before, cs0, buffer0, carried0 := chunks, cs, buffer, carried;
      chunks, buffer, carried, cs := GatherNext(pieces, i, buffer, carried, chunks, cs, first, section, chunkChars,
          overlapChars);
      if first + |chunks| >= maxChunks {
        StoppedNow(chunks, cs, buffer, carried, before, cs0, buffer0, carried0, pieces, i, first, section, chunkChars,
            overlapChars, maxChunks);
        full := true;
        return;
      }
    }
    chunks, cs := FlushSection(buffer, carried, chunks, cs, pieces, first, section, chunkChars, overlapChars,
        maxChunks);
  }

  function AllChunks(groups: seq<seq<Carried>>): seq<TextChunk> {
    if groups == [] then [] else AllChunks(groups[..|groups| - 1]) + ChunksOf(groups[|groups| - 1])
  }

  lemma GroupAdded(groups: seq<seq<Carried>>, cs: seq<Carried>)
    ensures AllChunks(groups + [cs]) == AllChunks(groups) + ChunksOf(cs)
  {
    assert (groups + [cs])[..|groups|] == groups;
  }

  lemma {:induction false} NumberedFrom(cs: seq<Carried>, first: nat, section: Section, chunkChars: nat,
      overlapChars: nat, i: nat)
    requires WellCut(cs, first, section, chunkChars, overlapChars) && i < |cs|
    ensures ChunksOf(cs)[i].index == first + i
  {
    if i < |cs| - 1 {
      NumberedFrom(cs[..|cs| - 1], first, section, chunkChars, overlapChars, i);
    }
  }

  /** The chunks of one section, `whole` when the limit did not stop them. */
  ghost predicate Fits(cs: seq<Carried>, first: nat, section: Section, chunkChars: nat, overlapChars: nat, whole: bool)
    requires overlapChars < chunkChars
  {
    && WellCut(cs, first, section, chunkChars, overlapChars)
    && SpellsPart(cs, section)
    && (whole ==> SpellsAll(cs, section))
    && TextsFit(ChunksOf(cs), section, chunkChars, overlapChars, whole)
  }

  /** Each group is cut from its own section, and each of the first `whole` spells all of it. */
  ghost predicate AllFit(groups: seq<seq<Carried>>, sections: seq<Section>, chunkChars: nat, overlapChars: nat,
      whole: nat)
    requires overlapChars < chunkChars
  {
    && |groups| <= |sections|
    && forall g: nat | g < |groups| ::
         Fits(groups[g], |AllChunks(groups[..g])|, sections[g], chunkChars, overlapChars, g < whole)
  }

  lemma AllFitMore(groups: seq<seq<Carried>>, cs: seq<Carried>, more: seq<seq<Carried>>, sections: seq<Section>,
                   chunkChars: nat, overlapChars: nat, whole: nat)
    requires overlapChars < chunkChars
    requires |groups| < |sections| && AllFit(groups, sections, chunkChars, overlapChars, whole)
    requires Fits(cs, |AllChunks(groups)|, sections[|groups|], chunkChars, overlapChars, |groups| < whole)
    requires more == groups + [cs]
    ensures AllFit(more, sections, chunkChars, overlapChars, whole)
  {
    forall g: nat | g < |more|
      ensures Fits(more[g], |AllChunks(more[..g])|, sections[g], chunkChars, overlapChars, g < whole)
    {
      assert more[..g] == groups[..g];
      assert g == |groups| ==> groups[..g] == groups;
    }
  }

  lemma FewerWhole(groups: seq<seq<Carried>>, sections: seq<Section>, chunkChars: nat, overlapChars: nat, more: nat,
      fewer: nat)
    requires overlapChars < chunkChars
    requires AllFit(groups, sections, chunkChars, overlapChars, more) && fewer <= more
    ensures AllFit(groups, sections, chunkChars, overlapChars, fewer)
  {
    forall g: nat | g < |groups|
      ensures Fits(groups[g], |AllChunks(groups[..g])|, sections[g], chunkChars, overlapChars, g < fewer)
    {
      assert Fits(groups[g], |AllChunks(groups[..g])|, sections[g], chunkChars, overlapChars, g < more);
    }
  }

  ghost predicate InOrder(chunks: seq<TextChunk>) {
    forall i | 0 <= i < |chunks| :: chunks[i].index == i
  }

  /** A section is begun only while the limit is not reached, and within a section the chunking stops as soon as it
      is. */
  ghost predicate StoppedInTime(groups: seq<seq<Carried>>, sections: seq<Section>, chunkChars: nat, overlapChars: nat,
      maxChunks: int, whole: nat)
    requires overlapChars < chunkChars && |groups| <= |sections|
  {
    forall g: nat | g < |groups| ::
      var before := AllChunks(groups[..g]);
      && (before == [] || |before| < maxChunks)
      && Stops(TextsOf(ChunksOf(groups[g])), sections[g], |before|, chunkChars, overlapChars, maxChunks, g < whole)
  }

  lemma OneMoreGroup(done: seq<seq<Carried>>, cs: seq<Carried>, groups: seq<seq<Carried>>, sections: seq<Section>,
      chunkChars: nat, overlapChars: nat, maxChunks: int, whole: nat)
    requires overlapChars < chunkChars && |done| < |sections| && groups == done + [cs] && whole >= |done|
    requires StoppedInTime(done, sections, chunkChars, overlapChars, maxChunks, |sections|)
    requires AllChunks(done) == [] || |AllChunks(done)| < maxChunks
    requires Stops(TextsOf(ChunksOf(cs)), sections[|done|], |AllChunks(done)|, chunkChars, overlapChars, maxChunks,
        |done| < whole)
    ensures StoppedInTime(groups, sections, chunkChars, overlapChars, maxChunks, whole)
  {
    forall g: nat | g < |groups|
      ensures var before := AllChunks(groups[..g]);
              && (before == [] || |before| < maxChunks)
              && Stops(TextsOf(ChunksOf(groups[g])), sections[g], |before|, chunkChars, overlapChars, maxChunks,
                   g < whole)
    {
      assert groups[..g] == done[..g];
      if g == |done| {
        assert done[..g] == done;
      }
    }
  }

  /** The chunks of the first sections, of which the first `whole` are not stopped. */
  ghost predicate Sectioned(chunks: seq<TextChunk>, groups: seq<seq<Carried>>, sections: seq<Section>, chunkChars: nat,
      overlapChars: nat, maxChunks: int, whole: nat)
    requires overlapChars < chunkChars
  {
    && chunks == AllChunks(groups) && InOrder(chunks) && AllFit(groups, sections, chunkChars, overlapChars, whole)
    && StoppedInTime(groups, sections, chunkChars, overlapChars, maxChunks, whole)
  }

  lemma NoSections(sections: seq<Section>, chunkChars: nat, overlapChars: nat, maxChunks: int)
    requires overlapChars < chunkChars
    ensures Sectioned([], [], sections, chunkChars, overlapChars, maxChunks, |sections|)
  {
  }

  /** The chunks of one more section, numbered on from the chunks before. */
  method AddSection(sections: seq<Section>, k: nat, chunkChars: nat, overlapChars: nat, maxChunks: int,
                    done: seq<TextChunk>, ghost groups0: seq<seq<Carried>>)
      returns (chunks: seq<TextChunk>, full: bool, ghost groups: seq<seq<Carried>>)
    requires overlapChars < chunkChars && k < |sections| && |groups0| == k && (done == [] || |done| < maxChunks)
    requires Sectioned(done, groups0, sections, chunkChars, overlapChars, maxChunks, |sections|)
    ensures |groups| == k + 1 && (full ==> |chunks| >= maxChunks)
    ensures Sectioned(chunks, groups, sections, chunkChars, overlapChars, maxChunks, if full then k else |sections|)
    ensures CleanText(sections[k].text) == "" ==> chunks == done
  {
    var more;
    ghost var cs;
    more, full, cs := ChunkSection(sections[k], |done|, chunkChars, overlapChars, maxChunks);
    chunks, groups := done + more, groups0 + [cs];
    SectionAdded(done, more, groups0, cs, sections, chunkChars, overlapChars, maxChunks,
        if full then k else |sections|);
    if CleanText(sections[k].text) == "" {
      BlankSection(more, sections[k], |done|, chunkChars, overlapChars, maxChunks, !full);
      assert done + [] == done;
    }
  }

  lemma BlankSection(more: seq<TextChunk>, section: Section, first: nat, chunkChars: nat, overlapChars: nat,
      maxChunks: int, whole: bool)
    requires overlapChars < chunkChars && CleanText(section.text) == ""
    requires TextsFit(more, section, chunkChars, overlapChars, whole)
    ensures more == []
  {
    assert SplitFrom("", 0, 0) == [""] && Visible([""]) == Visible([]);
  }

  lemma SectionAdded(done: seq<TextChunk>, more: seq<TextChunk>, groups0: seq<seq<Carried>>, cs: seq<Carried>,
      sections: seq<Section>, chunkChars: nat, overlapChars: nat, maxChunks: int, whole: nat)
    requires overlapChars < chunkChars && |groups0| < |sections| && |groups0| <= whole <= |sections|
    requires done == [] || |done| < maxChunks
    requires Sectioned(done, groups0, sections, chunkChars, overlapChars, maxChunks, |sections|)
    requires more == ChunksOf(cs)
    requires Fits(cs, |done|, sections[|groups0|], chunkChars, overlapChars, |groups0| < whole)
    requires Stops(TextsOf(more), sections[|groups0|], |done|, chunkChars, overlapChars, maxChunks, |groups0| < whole)
    ensures Sectioned(done + more, groups0 + [cs], sections, chunkChars, overlapChars, maxChunks, whole)
  {
    GroupAdded(groups0, cs);
    forall i | 0 <= i < |more| ensures more[i].index == |done| + i {
      NumberedFrom(cs, |done|, sections[|groups0|], chunkChars, overlapChars, i);
    }
    FewerWhole(groups0, sections, chunkChars, overlapChars, |sections|, whole);
    AllFitMore(groups0, cs, groups0 + [cs], sections, chunkChars, overlapChars, whole);
    OneMoreGroup(groups0, cs, groups0 + [cs], sections, chunkChars, overlapChars, maxChunks, whole);
  }

  /** The sections one after another, until the limit is reached. */
  method ChunkAll(sections: seq<Section>, chunkChars: nat, overlapChars: nat, maxChunks: int)
      returns (chunks: seq<TextChunk>, ghost groups: seq<seq<Carried>>, ghost whole: nat)
    requires overlapChars < chunkChars
    ensures Sectioned(chunks, groups, sections, chunkChars, overlapChars, maxChunks, whole) && |groups| <= whole + 1
    ensures |chunks| < maxChunks ==> |groups| == |sections| == whole
  {
    chunks, groups, whole := [], [], |sections|;
    NoSections(sections, chunkChars, overlapChars, maxChunks);
    for k := 0 to |sections|
      invariant |groups| == k && whole == |sections| && (chunks == [] || |chunks| < maxChunks)
      invariant Sectioned(chunks, groups, sections, chunkChars, overlapChars, maxChunks, whole)
    {
      var full;
      chunks, full, groups := AddSection(sections, k, chunkChars, overlapChars, maxChunks, chunks, groups);
      whole := if full then k else |sections|;
      if full || (CleanText(sections[k].text) != "" && |chunks| >= maxChunks) {
        return;
      }
    }
  }

  /** Every chunk of the sections, in order and numbered from 0. The chunks of a section are one group: each within
      the size, overlapping the one before only as recorded, and together spelling a beginning of its visible text,
      all of it in every group but perhaps the last. While the limit is not reached there is a group for every
      section and none loses anything; when it is reached, no more chunks are made. */
  method ChunkTexts(sections: seq<Section>, chunkChars: int, overlapChars: int, maxChunks: int)
      returns (r: Result<seq<TextChunk>, string>, ghost groups: seq<seq<Carried>>, ghost whole: nat)
    ensures r.Err? <==> chunkChars <= 0 || overlapChars < 0 || overlapChars >= chunkChars
    ensures r.Ok? ==> r.value == AllChunks(groups) && InOrder(r.value)
    ensures r.Ok? ==> |groups| <= |sections| && |groups| <= whole + 1
    ensures r.Ok? ==> forall g: nat | g < |groups| ::
              Fits(groups[g], |AllChunks(groups[..g])|, sections[g], chunkChars, overlapChars, g < whole)
    ensures r.Ok? && |r.value| < maxChunks ==> |groups| == |sections| == whole
    ensures r.Ok? ==> StoppedInTime(groups, sections, chunkChars, overlapChars, maxChunks, whole)
  {
    groups, whole := [], 0;
    if chunkChars <= 0 || overlapChars < 0 || overlapChars >= chunkChars {
      return Err("invalid chunking parameters"), groups, whole;
    }
    var chunks;
    chunks, groups, whole := ChunkAll(sections, chunkChars, overlapChars, maxChunks);
    r := Ok(chunks);
  }
}
