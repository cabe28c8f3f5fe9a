/** Python string operations the assistant leans on: whitespace, strip, split and join,
    and the one measure of "no text was lost" used by the chunker and the PDF writer. */
module Text {

  /** `str.isspace` for one character, which is also what `\s` matches in a `str` pattern. */
  predicate IsSpace(c: char) {
    || '\t' <= c <= '\r'
    || '\U{1C}' <= c <= ' '
    || c == '\U{85}' || c == '\U{A0}' || c == '\U{1680}'
    || '\U{2000}' <= c <= '\U{200A}'
    || c == '\U{2028}' || c == '\U{2029}' || c == '\U{202F}' || c == '\U{205F}' || c == '\U{3000}'
  }

  predicate AllSpace(s: string) {
    forall i | 0 <= i < |s| :: IsSpace(s[i])
  }

  predicate IsWord(w: string) {
    w != "" && forall i | 0 <= i < |w| :: !IsSpace(w[i])
  }

  /** The characters of a text that are not whitespace, in order. */
  function NonSpace(s: string): string {
    if s == "" then "" else (if IsSpace(s[0]) then "" else [s[0]]) + NonSpace(s[1..])
  }

  lemma {:induction false} NonSpaceConcat(a: string, b: string)
    ensures NonSpace(a + b) == NonSpace(a) + NonSpace(b)
  {
    if a == "" {
      assert a + b == b;
    } else {
      assert (a + b)[1..] == a[1..] + b;
      NonSpaceConcat(a[1..], b);
    }
  }

  lemma {:induction false} NonSpaceOfSpace(s: string)
    requires AllSpace(s)
    ensures NonSpace(s) == ""
  {
    if s != "" {
      NonSpaceOfSpace(s[1..]);
    }
  }

  /** Cutting a text anywhere keeps its characters. */
  lemma NonSpaceCut(s: string, k: nat)
    requires k <= |s|
    ensures NonSpace(s) == NonSpace(s[..k]) + NonSpace(s[k..])
  {
    assert s == s[..k] + s[k..];
    NonSpaceConcat(s[..k], s[k..]);
  }

  function Concat(parts: seq<string>): string {
    if parts == [] then "" else parts[0] + Concat(parts[1..])
  }

  lemma {:induction false} ConcatAppend(a: seq<string>, b: seq<string>)
    ensures Concat(a + b) == Concat(a) + Concat(b)
  {
    if a == [] {
      assert a + b == b;
    } else {
      assert (a + b)[1..] == a[1..] + b;
      ConcatAppend(a[1..], b);
    }
  }

  lemma ConcatSnoc(a: seq<string>, x: string)
    ensures Concat(a + [x]) == Concat(a) + x
  {
    ConcatAppend(a, [x]);
    assert Concat([x]) == x + Concat([]);
  }

  // ------------------------------------------------------------------ strip

  function LeadingSpace(s: string): (n: nat)
    ensures n <= |s| && AllSpace(s[..n]) && (n < |s| ==> !IsSpace(s[n]))
  {
    if s == "" || !IsSpace(s[0]) then 0
    else
      var rest := LeadingSpace(s[1..]);
      assert s[..1 + rest] == [s[0]] + s[1..][..rest];
      1 + rest
  }

  function LStrip(s: string): string {
    s[LeadingSpace(s)..]
  }

  function RStrip(s: string): (r: string)
    ensures r <= s && AllSpace(s[|r|..]) && (r != "" ==> !IsSpace(r[|r| - 1]))
  {
    if s == "" || !IsSpace(s[|s| - 1]) then s
    else
      var front := s[..|s| - 1];
      var r := RStrip(front);
      assert s[|r|..] == front[|r|..] + [s[|s| - 1]];
      r
  }

  function Strip(s: string): string {
    RStrip(LStrip(s))
  }

  predicate Trimmed(s: string) {
    s != "" ==> !IsSpace(s[0]) && !IsSpace(s[|s| - 1])
  }

  lemma LeadingSpaceIs(s: string, n: nat)
    requires n <= |s| && (forall i | 0 <= i < n :: IsSpace(s[i])) && (n < |s| ==> !IsSpace(s[n]))
    ensures LeadingSpace(s) == n
  {
    var m := LeadingSpace(s);
    assert forall i | 0 <= i < m :: s[..m][i] == s[i];
  }

  /** Leading whitespace is skipped alike in a text and in its beginnings. */
  lemma OpeningOfPrefix(whole: string, k: nat)
    requires k <= |whole|
    ensures var t := whole[..k];
            LStrip(t) == "" ||
            (LeadingSpace(t) == LeadingSpace(whole) && LStrip(whole) != "" && |LStrip(t)| <= |LStrip(whole)|
                && LStrip(t) == LStrip(whole)[..|LStrip(t)|])
  {
    var t := whole[..k];
    var n := LeadingSpace(t);
    if n < |t| {
      assert forall i | 0 <= i < n :: t[..n][i] == whole[i];
      LeadingSpaceIs(whole, n);
    }
  }

  lemma LStripTwice(s: string)
    ensures LStrip(LStrip(s)) == LStrip(s)
  {
  }

  lemma StripKeepsText(s: string)
    ensures |Strip(s)| <= |s|
    ensures Trimmed(Strip(s))
    ensures NonSpace(Strip(s)) == NonSpace(s)
  {
    var n := LeadingSpace(s);
    var l := LStrip(s);
    var r := Strip(s);
    NonSpaceCut(s, n);
    NonSpaceOfSpace(s[..n]);
    NonSpaceCut(l, |r|);
    assert l[..|r|] == r;
    NonSpaceOfSpace(l[|r|..]);
  }

  lemma StripTrimmed(s: string)
    requires Trimmed(s)
    ensures LStrip(s) == s && Strip(s) == s
  {
  }

  /** Stripping blank-or-not: the result is empty exactly for an all-space text. */
  lemma StripEmpty(s: string)
    ensures Strip(s) == "" <==> AllSpace(s)
  {
    if AllSpace(s) {
      assert LeadingSpace(s) == |s|;
    }
  }

  /** `s[:n]`. */
  function Clip(s: string, n: nat): string {
    if |s| <= n then s else s[..n]
  }

  // ---------------------------------------------------------- split and join

  function WordLength(s: string): (n: nat)
    ensures n <= |s| && (forall i | 0 <= i < n :: !IsSpace(s[i])) && (n < |s| ==> IsSpace(s[n]))
  {
    if s == "" || IsSpace(s[0]) then 0 else 1 + WordLength(s[1..])
  }

  /** `text.split()`: the maximal runs without whitespace. */
  function Words(s: string): (ws: seq<string>)
    ensures forall w | w in ws :: IsWord(w)
    decreases |s|
  {
    if s == "" then []
    else if IsSpace(s[0]) then Words(s[1..])
    else
      var n := WordLength(s);
      [s[..n]] + Words(s[n..])
  }

  /** `separator.join(parts)`. */
  function Join(separator: string, parts: seq<string>): string {
    if parts == [] then ""
    else if |parts| == 1 then parts[0]
    else parts[0] + separator + Join(separator, parts[1..])
  }

  lemma WordsAfterWord(w: string, rest: string)
    requires IsWord(w)
    requires rest != "" ==> IsSpace(rest[0])
    ensures Words(w + rest) == [w] + Words(rest)
  {
    var s := w + rest;
    var n := WordLength(s);
    assert forall i | 0 <= i < |w| :: s[i] == w[i];
    assert rest != "" ==> s[|w|] == rest[0];
    assert n == |w|;
    assert s[..n] == w && s[n..] == rest;
  }

  /** Joining words with single spaces and splitting again gives the words back. */
  lemma {:induction false} WordsJoin(ws: seq<string>)
    requires forall w | w in ws :: IsWord(w)
    ensures Words(Join(" ", ws)) == ws
  {
    if ws == [] {
    } else if |ws| == 1 {
      WordsAfterWord(ws[0], "");
      assert ws[0] + "" == ws[0];
    } else {
      var rest := " " + Join(" ", ws[1..]);
      assert Join(" ", ws) == ws[0] + rest;
      WordsAfterWord(ws[0], rest);
      assert rest[1..] == Join(" ", ws[1..]);
      WordsJoin(ws[1..]);
    }
  }

  lemma {:induction false} WordsKeepText(s: string)
    ensures NonSpace(Concat(Words(s))) == NonSpace(s)
    decreases |s|
  {
    if s == "" {
    } else if IsSpace(s[0]) {
      WordsKeepText(s[1..]);
    } else {
      var n := WordLength(s);
      WordsKeepText(s[n..]);
      NonSpaceCut(s, n);
      NonSpaceConcat(s[..n], Concat(Words(s[n..])));
      assert Words(s)[1..] == Words(s[n..]);
    }
  }

  /** Joining with a separator of whitespace adds no visible characters. */
  lemma {:induction false} JoinKeepsText(separator: string, parts: seq<string>)
    requires AllSpace(separator)
    ensures NonSpace(Join(separator, parts)) == NonSpace(Concat(parts))
  {
    if parts == [] {
    } else if |parts| == 1 {
      assert Concat(parts) == parts[0] + Concat([]);
      assert parts[0] + "" == parts[0];
    } else {
      JoinKeepsText(separator, parts[1..]);
      NonSpaceOfSpace(separator);
      NonSpaceConcat(parts[0] + separator, Join(separator, parts[1..]));
      NonSpaceConcat(parts[0], separator);
      NonSpaceConcat(parts[0], Concat(parts[1..]));
    }
  }

  /** Only whitespace is dropped by `" ".join(text.split())`. */
  lemma CollapseKeepsText(s: string)
    ensures NonSpace(Join(" ", Words(s))) == NonSpace(s)
  {
    WordsKeepText(s);
    JoinKeepsText(" ", Words(s));
  }

  lemma {:induction false} WordsAfterSpace(space: string, rest: string)
    requires AllSpace(space)
    ensures Words(space + rest) == Words(rest)
  {
    if space == "" {
      assert space + rest == rest;
    } else {
      assert (space + rest)[1..] == space[1..] + rest;
      WordsAfterSpace(space[1..], rest);
    }
  }

  /** Whitespace between two texts separates their words. */
  lemma {:induction false} WordsAround(a: string, space: string, b: string)
    requires AllSpace(space) && space != ""
    ensures Words(a + (space + b)) == Words(a) + Words(b)
    decreases |a|
  {
    if a == "" {
      assert a + (space + b) == space + b;
      WordsAfterSpace(space, b);
    } else if IsSpace(a[0]) {
      SpaceFirst(a, space + b);
      WordsAround(a[1..], space, b);
    } else {
      WordFirst(a, space + b);
      WordsAround(a[WordLength(a)..], space, b);
      Associative([a[..WordLength(a)]], Words(a[WordLength(a)..]), Words(b));
    }
  }

  lemma SpaceFirst(a: string, rest: string)
    requires a != "" && IsSpace(a[0])
    ensures Words(a + rest) == Words(a[1..] + rest)
  {
    assert (a + rest)[1..] == a[1..] + rest;
  }

  lemma WordFirst(a: string, rest: string)
    requires a != "" && !IsSpace(a[0]) && rest != "" && IsSpace(rest[0])
    ensures Words(a + rest) == [a[..WordLength(a)]] + Words(a[WordLength(a)..] + rest)
  {
    var n := WordLength(a);
    SplitBefore(a, n, rest);
    WordsAfterWord(a[..n], a[n..] + rest);
  }

  lemma SplitBefore(a: string, n: nat, rest: string)
    requires n <= |a|
    ensures a + rest == a[..n] + (a[n..] + rest)
  {
  }

  lemma Associative<T>(a: seq<T>, b: seq<T>, c: seq<T>)
    ensures a + (b + c) == (a + b) + c
  {
  }

  lemma StripKeepsWords(s: string)
    ensures Words(Strip(s)) == Words(s)
  {
    var n, l, r := LeadingSpace(s), LStrip(s), Strip(s);
    assert s == s[..n] + l && l == r + l[|r|..];
    WordsAfterSpace(s[..n], l);
    TrailingSpace(r, l[|r|..]);
  }

  lemma TrailingSpace(a: string, space: string)
    requires AllSpace(space)
    ensures Words(a + space) == Words(a)
  {
    if space == "" {
      assert a + space == a;
    } else {
      WordsAround(a, space, "");
      assert space + "" == space;
    }
  }

  lemma {:induction false} JoinSnoc(separator: string, parts: seq<string>, last: string)
    requires parts != []
    ensures Join(separator, parts + [last]) == Join(separator, parts) + (separator + last)
  {
    if |parts| == 1 {
      assert (parts + [last])[1..] == [last];
    } else {
      assert (parts + [last])[1..] == parts[1..] + [last];
      JoinSnoc(separator, parts[1..], last);
    }
  }

  /** The words of several texts, in order. */
  function AllWords(parts: seq<string>): seq<string> {
    if parts == [] then [] else AllWords(parts[..|parts| - 1]) + Words(parts[|parts| - 1])
  }

  lemma AllWordsSnoc(parts: seq<string>, part: string)
    ensures AllWords(parts + [part]) == AllWords(parts) + Words(part)
  {
    assert (parts + [part])[..|parts|] == parts;
  }

  /** Joining with whitespace keeps the words. */
  lemma {:induction false} WordsOfJoin(separator: string, parts: seq<string>)
    requires AllSpace(separator) && separator != ""
    ensures Words(Join(separator, parts)) == AllWords(parts)
  {
    if |parts| >= 2 {
      var last := |parts| - 1;
      WordsOfJoin(separator, parts[..last]);
      JoinSnoc(separator, parts[..last], parts[last]);
      WordsAround(Join(separator, parts[..last]), separator, parts[last]);
      assert parts == parts[..last] + [parts[last]];
    } else if parts != [] {
      AllWordsSnoc([], parts[0]);
      assert parts == [] + [parts[0]];
    }
  }
}
