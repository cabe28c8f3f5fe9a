/** Where a section's text is cut into chunks (apps/api/app/documents/chunking.py, `chunk_texts`), told from the
    chunk texts and the sentences alone: no cut is made without need, and the next chunk takes up the end of the one
    before. */
module Breaks {
  import opened Text
  import opened Chunking
  import opened Cleaning

  // ------------------------------------------------------------------- what a break looks like

  /** A text, a blank and a sentence, without whitespace at the ends. */
  function With(text: string, sentence: string): string {
    Strip(text + " " + sentence)
  }

  /** The last `n` characters, or all there are. */
  function End(text: string, n: nat): string {
    if |text| <= n then text else text[|text| - n..]
  }

  /** Up to whitespace in front, `next` begins with `b`; a full chunk may be cut off before `b` ends. */
  ghost predicate Begins(next: string, b: string, chunkChars: nat, cut: bool) {
    LStrip(b) <= LStrip(next) || (cut && |next| == chunkChars && LStrip(next) <= LStrip(b))
  }

  /** The text ends with the sentence, or in the middle of it. */
  ghost predicate EndsIn(text: string, sentence: string) {
    EndsWith(text, sentence) || EndsWith(sentence, text)
  }

  /** The chunk ends with sentence `j - 1`; it is no mere heading, and sentence `j` does not fit behind it. The next
      chunk begins with its end and sentence `j`. */
  ghost predicate BreakBefore(chunk: string, next: string, cut: bool, sentences: seq<string>, j: nat, chunkChars: nat,
      overlapChars: nat)
  {
    && 0 < j < |sentences| && |chunk| >= HEADING_CHARS && EndsIn(chunk, sentences[j - 1])
    && |With(chunk, sentences[j])| > chunkChars
    && Begins(next, With(End(chunk, overlapChars), sentences[j]), chunkChars, cut)
  }

  /** The chunk is `chunkChars` characters of sentence `j`, with a heading or an overlap before it, and there are
      more of them. The next chunk begins with its end. */
  ghost predicate BreakInside(chunk: string, next: string, cut: bool, sentences: seq<string>, j: nat, chunkChars: nat,
      overlapChars: nat)
    requires overlapChars < chunkChars
  {
    && j < |sentences| && |chunk| == chunkChars
    && Begins(next, chunk[chunkChars - overlapChars..], chunkChars, cut)
    && exists lead, at: nat :: IsPart(chunk, lead, sentences[j], at, overlapChars)
  }

  /** The chunk is found at `at` in a heading or an overlap and the sentence, and does not reach their end. */
  ghost predicate IsPart(chunk: string, lead: string, sentence: string, at: nat, overlapChars: nat) {
    && (|lead| < HEADING_CHARS || |lead| <= overlapChars)
    && at + |chunk| < |With(lead, sentence)| && With(lead, sentence)[at..at + |chunk|] == chunk
  }

  /** Among the first `i` sentences there is one that forces the break. */
  ghost predicate Forced(chunk: string, next: string, cut: bool, sentences: seq<string>, i: nat, chunkChars: nat,
      overlapChars: nat)
    requires overlapChars < chunkChars
  {
    exists j: nat | j < i ::
      || BreakBefore(chunk, next, cut, sentences, j, chunkChars, overlapChars)
      || BreakInside(chunk, next, cut, sentences, j, chunkChars, overlapChars)
  }

  ghost predicate AllForced(f: Filling, sentences: seq<string>, i: nat, chunkChars: nat, overlapChars: nat)
    requires overlapChars < chunkChars
  {
    forall g | 0 <= g < |f.texts| ::
      Forced(f.texts[g], NextText(f, g), g + 1 < |f.texts|, sentences, i, chunkChars, overlapChars)
  }

  function NextText(f: Filling, g: nat): string
    requires g < |f.texts|
  {
    if g + 1 < |f.texts| then f.texts[g + 1] else f.buffer
  }

  // ------------------------------------------------------------------- growing buffers

  lemma StripOpenEnd(s: string)
    requires s != "" && !IsSpace(s[|s| - 1])
    ensures Strip(s) == LStrip(s) && LStrip(s) != "" && !IsSpace(LStrip(s)[0])
  {
    var n := LeadingSpace(s);
    assert s[..|s|] == s;
    assert s[n..][|s| - n - 1] == s[|s| - 1];
  }

  lemma LStripBefore(a: string, b: string)
    requires LStrip(a) != ""
    ensures LStrip(a + b) == LStrip(a) + b
  {
    var n := LeadingSpace(a);
    assert forall i | 0 <= i < n :: a[..n][i] == (a + b)[i];
    assert (a + b)[n] == a[n];
    LeadingSpaceIs(a + b, n);
    ConcatSlices(a, b, n);
  }

  /** With a sentence behind it, a text keeps its beginning, and ends with the sentence. */
  lemma WithSentence(text: string, sentence: string)
    requires sentence != "" && Trimmed(sentence)
    ensures With(text, sentence) != "" && !IsSpace(With(text, sentence)[0])
    ensures EndsWith(With(text, sentence), sentence)
    ensures LStrip(text) != "" ==> With(text, sentence) == LStrip(text) + " " + sentence
    ensures LStrip(text) == "" ==> With(text, sentence) == sentence
  {
    var s := text + " " + sentence;
    assert s[|s| - 1] == sentence[|sentence| - 1];
    StripOpenEnd(s);
    if LStrip(text) != "" {
      assert s == text + (" " + sentence);
      LStripBefore(text, " " + sentence);
    } else {
      BlankBefore(text + " ", sentence);
    }
  }

  lemma BlankBefore(blank: string, sentence: string)
    requires (forall i | 0 <= i < |blank| :: IsSpace(blank[i])) && sentence != "" && !IsSpace(sentence[0])
    ensures LStrip(blank + sentence) == sentence
  {
    LeadingSpaceIs(blank + sentence, |blank|);
  }

  lemma JoinedIsWith(buffer: string, sentence: string)
    ensures Joined(buffer, sentence) == With(buffer, sentence)
  {
    StripAfterSpace(sentence);
  }

  lemma GrownBegins(buffer: string, sentence: string, b: string, chunkChars: nat)
    requires sentence != "" && Trimmed(sentence) && Begins(buffer, b, chunkChars, false)
    ensures Begins(With(buffer, sentence), b, chunkChars, false)
  {
    WithSentence(buffer, sentence);
    assert LStrip(With(buffer, sentence)) == With(buffer, sentence);
  }

  lemma CutBegins(buffer: string, b: string, chunkChars: nat)
    requires Begins(buffer, b, chunkChars, false) && |buffer| > chunkChars
    ensures Begins(buffer[..chunkChars], b, chunkChars, true)
  {
    OpeningOfPrefix(buffer, chunkChars);
    var whole, cut, m := LStrip(buffer), LStrip(buffer[..chunkChars]), LStrip(b);
    if cut != "" {
      PrefixesOfOne(whole, cut, m);
    }
  }

  lemma PrefixesOfOne(whole: string, a: string, b: string)
    requires a <= whole && b <= whole
    ensures a <= b || b <= a
  {
  }

  // ------------------------------------------------------------------- forced so far

  lemma ForcedOn(chunk: string, next: string, cut: bool, then_: string, cut': bool, sentences: seq<string>, i: nat,
      more: nat, chunkChars: nat, overlapChars: nat)
    requires overlapChars < chunkChars && i <= more
    requires Forced(chunk, next, cut, sentences, i, chunkChars, overlapChars)
    requires forall b | Begins(next, b, chunkChars, cut) :: Begins(then_, b, chunkChars, cut')
    ensures Forced(chunk, then_, cut', sentences, more, chunkChars, overlapChars)
  {
    var j: nat :| j < i
        && (BreakBefore(chunk, next, cut, sentences, j, chunkChars, overlapChars)
            || BreakInside(chunk, next, cut, sentences, j, chunkChars, overlapChars));
    if BreakBefore(chunk, next, cut, sentences, j, chunkChars, overlapChars) {
      assert BreakBefore(chunk, then_, cut', sentences, j, chunkChars, overlapChars);
    } else {
      assert BreakInside(chunk, then_, cut', sentences, j, chunkChars, overlapChars);
    }
  }

  /** The buffer grows. */
  lemma GrownForced(f: Filling, sentences: seq<string>, i: nat, chunkChars: nat, overlapChars: nat)
    requires overlapChars < chunkChars && i < |sentences| && sentences[i] != "" && Trimmed(sentences[i])
    requires AllForced(f, sentences, i, chunkChars, overlapChars)
    ensures AllForced(Filling(f.texts, With(f.buffer, sentences[i])), sentences, i + 1, chunkChars, overlapChars)
  {
    var next := Filling(f.texts, With(f.buffer, sentences[i]));
    forall b | Begins(f.buffer, b, chunkChars, false)
      ensures Begins(next.buffer, b, chunkChars, false)
    {
      GrownBegins(f.buffer, sentences[i], b, chunkChars);
    }
    forall g | 0 <= g < |f.texts|
      ensures Forced(f.texts[g], NextText(next, g), g + 1 < |f.texts|, sentences, i + 1, chunkChars, overlapChars)
    {
      ForcedOn(f.texts[g], NextText(f, g), g + 1 < |f.texts|, NextText(next, g), g + 1 < |f.texts|, sentences, i,
          i + 1, chunkChars, overlapChars);
    }
  }

  /** The buffer, or its first characters, become a chunk, with `next` behind it. */
  lemma EmittedForced(f: Filling, chunk: string, next: string, sentences: seq<string>, i: nat, more: nat,
      chunkChars: nat, overlapChars: nat)
    requires overlapChars < chunkChars && i <= more
    requires AllForced(f, sentences, i, chunkChars, overlapChars)
    requires forall b | Begins(f.buffer, b, chunkChars, false) :: Begins(chunk, b, chunkChars, true)
    requires Forced(chunk, next, false, sentences, more, chunkChars, overlapChars)
    ensures AllForced(Filling(f.texts + [chunk], next), sentences, more, chunkChars, overlapChars)
  {
    var after := Filling(f.texts + [chunk], next);
    forall g | 0 <= g < |after.texts|
      ensures Forced(after.texts[g], NextText(after, g), g + 1 < |after.texts|, sentences, more, chunkChars,
              overlapChars)
    {
      if g < |f.texts| {
        ForcedOn(f.texts[g], NextText(f, g), g + 1 < |f.texts|, NextText(after, g), true, sentences, i, more,
            chunkChars, overlapChars);
      }
    }
  }

  // ------------------------------------------------------------------- cutting a long buffer

  lemma BeginsItself(s: string, t: string, chunkChars: nat)
    requires s <= t
    ensures Begins(t, s, chunkChars, false)
  {
    assert s == t[..|s|];
    OpeningOfPrefix(t, |s|);
  }

  /** A full chunk of a heading or an overlap and a sentence. */
  lemma CutIsForced(buffer: string, lead: string, at: nat, sentences: seq<string>, j: nat, chunkChars: nat,
      overlapChars: nat)
    requires overlapChars < chunkChars < |buffer| && j < |sentences|
    requires |lead| < HEADING_CHARS || |lead| <= overlapChars
    requires at <= |With(lead, sentences[j])| && buffer == With(lead, sentences[j])[at..]
    ensures Forced(buffer[..chunkChars], buffer[chunkChars - overlapChars..], false, sentences, j + 1, chunkChars,
            overlapChars)
  {
    var chunk, next := buffer[..chunkChars], buffer[chunkChars - overlapChars..];
    assert IsPart(chunk, lead, sentences[j], at, overlapChars);
    assert chunk[chunkChars - overlapChars..] <= next;
    BeginsItself(chunk[chunkChars - overlapChars..], next, chunkChars);
    assert BreakInside(chunk, next, false, sentences, j, chunkChars, overlapChars);
  }

  lemma {:induction false} DrainedForced(f: Filling, lead: string, at: nat, sentences: seq<string>, j: nat,
      chunkChars: nat, overlapChars: nat)
    requires overlapChars < chunkChars && j < |sentences|
    requires |lead| < HEADING_CHARS || |lead| <= overlapChars || |f.buffer| <= chunkChars
    requires at <= |With(lead, sentences[j])| && f.buffer == With(lead, sentences[j])[at..]
    requires f.buffer != "" && EndsWith(With(lead, sentences[j]), sentences[j])
    requires AllForced(f, sentences, j + 1, chunkChars, overlapChars)
    ensures var d := Drained(f, chunkChars, overlapChars);
            && AllForced(d, sentences, j + 1, chunkChars, overlapChars)
            && d.buffer != "" && EndsIn(d.buffer, sentences[j]) && |d.buffer| <= chunkChars
    decreases |f.buffer|
  {
    if |f.buffer| <= chunkChars {
      EndOfEnd(With(lead, sentences[j]), sentences[j], at);
    } else {
      var chunk, next := f.buffer[..chunkChars], f.buffer[chunkChars - overlapChars..];
      forall b | Begins(f.buffer, b, chunkChars, false) ensures Begins(chunk, b, chunkChars, true) {
        CutBegins(f.buffer, b, chunkChars);
      }
      CutIsForced(f.buffer, lead, at, sentences, j, chunkChars, overlapChars);
      EmittedForced(f, chunk, next, sentences, j + 1, j + 1, chunkChars, overlapChars);
      SuffixOfSuffix(With(lead, sentences[j]), at, chunkChars - overlapChars);
      DrainedForced(Filling(f.texts + [chunk], next), lead, at + (chunkChars - overlapChars), sentences, j, chunkChars,
          overlapChars);
    }
  }

  lemma SuffixOfSuffix(s: string, at: nat, k: nat)
    requires at + k <= |s|
    ensures s[at..][k..] == s[at + k..]
  {
  }

  /** Two endings of one text. */
  lemma EndOfEnd(s: string, t: string, at: nat)
    requires EndsWith(s, t) && at <= |s|
    ensures EndsIn(s[at..], t)
  {
    var k := |s| - |t|;
    if at <= k {
      assert s[at..][k - at..] == s[k..];
    } else {
      assert s[k..][at - k..] == s[at..];
    }
  }

  // ------------------------------------------------------------------- one more sentence

  /** After the first `i` sentences. */
  ghost predicate Taken(f: Filling, sentences: seq<string>, i: nat, chunkChars: nat, overlapChars: nat)
    requires overlapChars < chunkChars && i <= |sentences|
  {
    && AllForced(f, sentences, i, chunkChars, overlapChars) && |f.buffer| <= chunkChars
    && (if i == 0 then f == Filling([], "") else f.buffer != "" && EndsIn(f.buffer, sentences[i - 1]))
  }

  lemma TailIsEnd(buffer: string, overlapChars: nat)
    ensures Tail(buffer, overlapChars) == End(buffer, overlapChars)
  {
  }

  /** The sentence joins the buffer. */
  lemma JoiningForced(f: Filling, sentences: seq<string>, i: nat, chunkChars: nat, overlapChars: nat)
    requires overlapChars < chunkChars && i < |sentences| && OneSentence(sentences[i])
    requires AllForced(f, sentences, i, chunkChars, overlapChars)
    requires |With(f.buffer, sentences[i])| <= chunkChars || |f.buffer| < HEADING_CHARS
    ensures Taken(Drained(Filling(f.texts, With(f.buffer, sentences[i])), chunkChars, overlapChars), sentences, i + 1,
            chunkChars, overlapChars)
  {
    GrownForced(f, sentences, i, chunkChars, overlapChars);
    WithSentence(f.buffer, sentences[i]);
    WholeText(With(f.buffer, sentences[i]));
    DrainedForced(Filling(f.texts, With(f.buffer, sentences[i])), f.buffer, 0, sentences, i, chunkChars, overlapChars);
  }

  /** The buffer becomes a chunk, and its end starts the next one with the sentence. */
  lemma EndingForced(f: Filling, sentences: seq<string>, i: nat, chunkChars: nat, overlapChars: nat)
    requires overlapChars < chunkChars && i < |sentences| && OneSentence(sentences[i])
    requires Taken(f, sentences, i, chunkChars, overlapChars)
    requires |With(f.buffer, sentences[i])| > chunkChars && |f.buffer| >= HEADING_CHARS
    ensures Taken(Drained(Filling(f.texts + [f.buffer], With(End(f.buffer, overlapChars), sentences[i])), chunkChars,
            overlapChars), sentences, i + 1, chunkChars, overlapChars)
  {
    var tail := End(f.buffer, overlapChars);
    EndedForced(f, With(tail, sentences[i]), sentences, i, chunkChars, overlapChars);
    NextStarts(Filling(f.texts + [f.buffer], With(tail, sentences[i])), tail, sentences, i, chunkChars, overlapChars);
  }

  lemma EndedForced(f: Filling, next: string, sentences: seq<string>, i: nat, chunkChars: nat, overlapChars: nat)
    requires overlapChars < chunkChars && 0 < i < |sentences|
    requires AllForced(f, sentences, i, chunkChars, overlapChars) && EndsIn(f.buffer, sentences[i - 1])
    requires |With(f.buffer, sentences[i])| > chunkChars && |f.buffer| >= HEADING_CHARS
    requires next == With(End(f.buffer, overlapChars), sentences[i])
    ensures AllForced(Filling(f.texts + [f.buffer], next), sentences, i + 1, chunkChars, overlapChars)
  {
    BreakIsForced(f.buffer, next, sentences, i, chunkChars, overlapChars);
    EmittedForced(f, f.buffer, next, sentences, i, i + 1, chunkChars, overlapChars);
  }

  lemma NextStarts(f: Filling, tail: string, sentences: seq<string>, i: nat, chunkChars: nat, overlapChars: nat)
    requires overlapChars < chunkChars && i < |sentences| && OneSentence(sentences[i])
    requires |tail| <= overlapChars && f.buffer == With(tail, sentences[i])
    requires AllForced(f, sentences, i + 1, chunkChars, overlapChars)
    ensures Taken(Drained(f, chunkChars, overlapChars), sentences, i + 1, chunkChars, overlapChars)
  {
    WithSentence(tail, sentences[i]);
    WholeText(f.buffer);
    DrainedForced(f, tail, 0, sentences, i, chunkChars, overlapChars);
  }

  lemma GatheredForced(f: Filling, sentences: seq<string>, i: nat, chunkChars: nat, overlapChars: nat)
    requires overlapChars < chunkChars && i < |sentences| && OneSentence(sentences[i])
    requires Taken(f, sentences, i, chunkChars, overlapChars)
    ensures Taken(Gathered(f, sentences[i], chunkChars, overlapChars), sentences, i + 1, chunkChars, overlapChars)
  {
    JoinedIsWith(f.buffer, sentences[i]);
    if |With(f.buffer, sentences[i])| <= chunkChars || |f.buffer| < HEADING_CHARS {
      JoiningForced(f, sentences, i, chunkChars, overlapChars);
    } else {
      TailIsEnd(f.buffer, overlapChars);
      JoinedIsWith(End(f.buffer, overlapChars), sentences[i]);
      EndingForced(f, sentences, i, chunkChars, overlapChars);
    }
  }

  lemma WholeText(s: string)
    ensures s[0..] == s
  {
  }

  lemma BreakIsForced(buffer: string, next: string, sentences: seq<string>, i: nat, chunkChars: nat, overlapChars: nat)
    requires overlapChars < chunkChars && 0 < i < |sentences|
    requires |buffer| >= HEADING_CHARS && |With(buffer, sentences[i])| > chunkChars && EndsIn(buffer, sentences[i - 1])
    requires next == With(End(buffer, overlapChars), sentences[i])
    ensures Forced(buffer, next, false, sentences, i + 1, chunkChars, overlapChars)
  {
    assert BreakBefore(buffer, next, false, sentences, i, chunkChars, overlapChars);
  }

  lemma {:induction false} FilledForced(sentences: seq<string>, i: nat, chunkChars: nat, overlapChars: nat)
    requires overlapChars < chunkChars && i <= |sentences| && forall s | s in sentences :: OneSentence(s)
    ensures Taken(Filled(sentences[..i], chunkChars, overlapChars), sentences, i, chunkChars, overlapChars)
    decreases i
  {
    if i > 0 {
      FilledForced(sentences, i - 1, chunkChars, overlapChars);
      FilledOn(sentences, i - 1, chunkChars, overlapChars);
      GatheredForced(Filled(sentences[..i - 1], chunkChars, overlapChars), sentences, i - 1, chunkChars, overlapChars);
    }
  }

  // ------------------------------------------------------------------- the theorems

  ghost predicate BreaksForced(texts: seq<string>, sentences: seq<string>, chunkChars: nat, overlapChars: nat)
    requires overlapChars < chunkChars
  {
    forall g | 0 <= g < |texts| - 1 ::
      Forced(texts[g], texts[g + 1], true, sentences, |sentences|, chunkChars, overlapChars)
  }

  /** Between any two chunks of a section: either the first has at least 80 characters, ends with a sentence, and the
      next sentence does not fit behind it, or it is cut off in the middle of a sentence that a heading or an overlap
      at most stands before. The second begins with the end of the first, and the sentence. */
  lemma EveryBreakIsForced(text: string, chunkChars: nat, overlapChars: nat)
    requires overlapChars < chunkChars
    ensures BreaksForced(SectionTexts(text, chunkChars, overlapChars), Sentences(CleanText(text)), chunkChars,
            overlapChars)
  {
    var sentences := Sentences(CleanText(text));
    var f := Filled(sentences, chunkChars, overlapChars);
    SentencesExact(text);
    assert sentences[..|sentences|] == sentences;
    FilledForced(sentences, |sentences|, chunkChars, overlapChars);
    FlushedForced(f, sentences, chunkChars, overlapChars);
  }

  lemma FlushedForced(f: Filling, sentences: seq<string>, chunkChars: nat, overlapChars: nat)
    requires overlapChars < chunkChars && AllForced(f, sentences, |sentences|, chunkChars, overlapChars)
    ensures BreaksForced(Flushed(f), sentences, chunkChars, overlapChars)
  {
    var texts := Flushed(f);
    forall g | 0 <= g < |texts| - 1
      ensures Forced(texts[g], texts[g + 1], true, sentences, |sentences|, chunkChars, overlapChars)
    {
      ForcedOn(f.texts[g], NextText(f, g), g + 1 < |f.texts|, texts[g + 1], true, sentences, |sentences|, |sentences|,
          chunkChars, overlapChars);
    }
  }

  lemma {:induction false} JoinGrows(sentences: seq<string>, i: nat)
    requires i <= |sentences|
    ensures |Join(" ", sentences[..i])| <= |Join(" ", sentences)|
    decreases |sentences| - i
  {
    if i == |sentences| {
      assert sentences[..i] == sentences;
    } else {
      JoinGrows(sentences, i + 1);
      assert sentences[..i + 1] == sentences[..i] + [sentences[i]];
      if i > 0 {
        JoinSnoc(" ", sentences[..i], sentences[i]);
      }
    }
  }

  /** Sentences joined one after another. */
  lemma JoinedSoFar(sentences: seq<string>, i: nat)
    requires i < |sentences| && OneSentence(sentences[i])
    requires i > 0 ==> Join(" ", sentences[..i]) != "" && !IsSpace(Join(" ", sentences[..i])[0])
    ensures var text := Join(" ", sentences[..i + 1]);
            text == With(Join(" ", sentences[..i]), sentences[i]) && text != "" && !IsSpace(text[0])
  {
    var front := Join(" ", sentences[..i]);
    assert sentences[..i + 1] == sentences[..i] + [sentences[i]];
    WithSentence(front, sentences[i]);
    if i > 0 {
      JoinSnoc(" ", sentences[..i], sentences[i]);
      NothingToStrip(front);
      assert front + (" " + sentences[i]) == front + " " + sentences[i];
    }
  }

  lemma NothingToStrip(s: string)
    requires s != "" && !IsSpace(s[0])
    ensures LStrip(s) == s
  {
  }

  lemma {:induction false} JoinedFits(sentences: seq<string>, i: nat, chunkChars: nat, overlapChars: nat)
    requires overlapChars < chunkChars && i <= |sentences| && forall s | s in sentences :: OneSentence(s)
    requires |Join(" ", sentences)| <= chunkChars
    ensures Filled(sentences[..i], chunkChars, overlapChars) == Filling([], Join(" ", sentences[..i]))
    ensures i > 0 ==> Join(" ", sentences[..i]) != "" && !IsSpace(Join(" ", sentences[..i])[0])
    decreases i
  {
    if i > 0 {
      JoinedFits(sentences, i - 1, chunkChars, overlapChars);
      FilledOn(sentences, i - 1, chunkChars, overlapChars);
      JoinedSoFar(sentences, i - 1);
      JoinedIsWith(Join(" ", sentences[..i - 1]), sentences[i - 1]);
      JoinGrows(sentences, i);
    }
  }

  /** A section whose sentences, joined by single blanks, fit one chunk is that one chunk; an empty one is none. */
  lemma FittingSectionIsOneChunk(text: string, chunkChars: nat, overlapChars: nat)
    requires overlapChars < chunkChars
    requires |Join(" ", Sentences(CleanText(text)))| <= chunkChars
    ensures var sentences := Sentences(CleanText(text));
            SectionTexts(text, chunkChars, overlapChars) == if sentences == [] then [] else [Join(" ", sentences)]
  {
    var sentences := Sentences(CleanText(text));
    SentencesExact(text);
    JoinedFits(sentences, |sentences|, chunkChars, overlapChars);
    assert sentences[..|sentences|] == sentences;
    assert [] + [Join(" ", sentences)] == [Join(" ", sentences)];
  }
}
