/** The `[[search: ...]]` marker a model may begin its reply with (apps/api/app/conversation/prompts.py). */
module SearchMarker {
  import opened Values
  import opened Text

  const MIN_QUERY: nat := 2
  const MAX_QUERY: nat := 300

  // ------------------------------------------------------- the search marker

  /** The position of the first closing bracket, or the length. */
  function CloseAt(s: string): (n: nat)
    ensures n <= |s| && (forall i | 0 <= i < n :: s[i] != ']') && (n < |s| ==> s[n] == ']')
  {
    if s == "" || s[0] == ']' then 0 else 1 + CloseAt(s[1..])
  }

  /** `search`, ignoring case; a long s folds to s. */
  predicate SaysSearch(s: string) {
    && |s| >= 6
    && s[0] in ['s', 'S', '\U{17F}'] && s[1] in ['e', 'E'] && s[2] in ['a', 'A']
    && s[3] in ['r', 'R'] && s[4] in ['c', 'C'] && s[5] in ['h', 'H']
  }

  predicate IsQuery(s: string) {
    MIN_QUERY <= |s| <= MAX_QUERY && '\n' !in s
  }

  /** Whitespace after the colon is given to the separator as far as possible; the query takes back
      only what it needs to be long enough. */
  function QueryFrom(tail: string, start: nat): Option<string>
    requires start <= |tail|
    decreases start
  {
    if IsQuery(tail[start..]) then Some(tail[start..])
    else if start == 0 then None
    else QueryFrom(tail, start - 1)
  }

  /** The query of a marker, given everything before its closing brackets. */
  function MarkerBody(body: string): Option<string> {
    if !Opens(body) then None
    else
      var word := LStrip(body[2..]);
      if !SaysSearch(word) then None
      else
        var colon := LStrip(word[6..]);
        if colon == "" || colon[0] != ':' then None
        else QueryFrom(colon[1..], LeadingSpace(colon[1..]))
  }

  /** A marker at the start of a text without leading whitespace: its query and where it ends.
      Nothing inside a marker is a closing bracket, so it can only end at the first two. */
  function MarkerIn(opening: string): Option<(string, nat)> {
    var close := CloseAt(opening);
    if close + 1 >= |opening| || opening[close + 1] != ']' then None
    else Ending(MarkerBody(opening[..close]), close + 2)
  }

  function Ending(query: Option<string>, end: nat): Option<(string, nat)> {
    match query
    case None => None
    case Some(text) => Some((Join(" ", Words(text)), end))
  }

  function SplitSearchRequest(reply: string): (Option<string>, string) {
    var opening := LStrip(reply);
    match MarkerIn(opening)
    case None => (None, Strip(reply))
    case Some((query, end)) => (Some(query), if end <= |opening| then Strip(opening[end..]) else "")
  }

  predicate HasDoubleClose(s: string) {
    exists i | 0 <= i < |s| - 1 :: s[i] == ']' && s[i + 1] == ']'
  }

  predicate Opens(s: string) {
    |s| >= 2 && s[0] == '[' && s[1] == '['
  }

  // -------------------------------------------------------------- properties

  lemma CloseIs(s: string, n: nat)
    requires n <= |s| && (forall i | 0 <= i < n :: s[i] != ']') && (n < |s| ==> s[n] == ']')
    ensures CloseAt(s) == n
  {
  }

  /** The first closing bracket of a beginning that reaches past it. */
  lemma CloseOfPrefix(whole: string, k: nat)
    requires k <= |whole|
    ensures CloseAt(whole) < k ==> CloseAt(whole[..k]) == CloseAt(whole)
    ensures CloseAt(whole) >= k ==> CloseAt(whole[..k]) == k
  {
    if CloseAt(whole) < k {
      CloseIs(whole[..k], CloseAt(whole));
    } else {
      CloseIs(whole[..k], k);
    }
  }

  /** A marker is decided by its own characters: nothing before its end shows it, nothing after changes it. */
  lemma MarkerIsLocal(whole: string, k: nat)
    requires k <= |whole|
    ensures k >= CloseAt(whole) + 2 ==> MarkerIn(whole[..k]) == MarkerIn(whole)
    ensures k < CloseAt(whole) + 2 ==> MarkerIn(whole[..k]) == None && !HasDoubleClose(whole[..k])
  {
    var close, t := CloseAt(whole), whole[..k];
    CloseOfPrefix(whole, k);
    if k >= close + 2 {
      assert t[..close] == whole[..close];
      assert t[close + 1] == whole[close + 1];
    } else {
      assert forall i | 0 <= i < |t| && i < close :: t[i] == whole[i];
    }
  }

  lemma BodyOpens(body: string)
    requires MarkerBody(body).Some?
    ensures Opens(body)
  {
  }

  lemma EndingShape(query: Option<string>, end: nat)
    ensures Ending(query, end).Some? <==> query.Some?
    ensures query.Some? ==> Ending(query, end).value.1 == end
  {
  }

  lemma MarkerShape(whole: string)
    requires MarkerIn(whole).Some?
    ensures MarkerIn(whole).value.1 == CloseAt(whole) + 2 <= |whole| && Opens(whole)
  {
    var close := CloseAt(whole);
    var body := whole[..close];
    EndingShape(MarkerBody(body), close + 2);
    BodyOpens(body);
    assert body[0] == whole[0] && body[1] == whole[1];
  }

  // -------------------------------------------------------------- the pattern

  /** A marker as the pattern describes it: brackets, `search`, a colon and a query, with whitespace between them. */
  datatype Parts = Parts(before: string, word: string, after: string, gap: string, query: string)

  predicate Matches(parts: Parts) {
    && AllSpace(parts.before) && AllSpace(parts.after) && AllSpace(parts.gap)
    && |parts.word| == 6 && SaysSearch(parts.word)
    && IsQuery(parts.query) && ']' !in parts.query
  }

  function BodyText(parts: Parts): string {
    "[[" + (parts.before + (parts.word + (parts.after + (":" + (parts.gap + parts.query)))))
  }

  function MarkerText(parts: Parts): string {
    BodyText(parts) + "]]"
  }

  lemma LStripIs(space: string, rest: string)
    requires AllSpace(space) && rest != "" && !IsSpace(rest[0])
    ensures LStrip(space + rest) == rest
  {
    var s := space + rest;
    var n := LeadingSpace(s);
    assert s[|space|] == rest[0] && forall i | 0 <= i < |space| :: s[i] == space[i];
    assert forall i | 0 <= i < n :: s[..n][i] == s[i];
    assert n == |space|;
  }

  lemma SpaceTaken(gap: string, query: string)
    requires AllSpace(gap)
    ensures |gap| <= LeadingSpace(gap + query)
  {
    var s := gap + query;
    var n := LeadingSpace(s);
    assert forall i | 0 <= i < |gap| :: s[i] == gap[i];
  }

  /** Wherever the query is taken to begin in the whitespace, it has the same words. */
  lemma {:induction false} QueryFound(tail: string, start: nat, k: nat)
    requires k <= start <= LeadingSpace(tail) && IsQuery(tail[k..])
    ensures QueryFrom(tail, start).Some? && Words(QueryFrom(tail, start).value) == Words(tail[k..])
    decreases start
  {
    if IsQuery(tail[start..]) {
      var space := tail[k..start];
      assert forall i | 0 <= i < |space| :: space[i] == tail[..LeadingSpace(tail)][k + i];
      WordsAfterSpace(space, tail[start..]);
      assert space + tail[start..] == tail[k..];
    } else {
      QueryFound(tail, start - 1, k);
    }
  }

  lemma WordStripped(parts: Parts, rest: string)
    requires Matches(parts)
    ensures LStrip(("[[" + (parts.before + (parts.word + rest)))[2..]) == parts.word + rest
    ensures SaysSearch(parts.word + rest) && (parts.word + rest)[6..] == rest
  {
    var text := "[[" + (parts.before + (parts.word + rest));
    assert text[2..] == parts.before + (parts.word + rest);
    assert (parts.word + rest)[0] == parts.word[0];
    LStripIs(parts.before, parts.word + rest);
    assert forall i | 0 <= i < 6 :: (parts.word + rest)[i] == parts.word[i];
  }

  /** How the body of a marker is read, step by step. */
  lemma BodyBy(body: string, word: string, colon: string)
    requires Opens(body) && LStrip(body[2..]) == word && SaysSearch(word)
    requires LStrip(word[6..]) == colon && colon != "" && colon[0] == ':'
    ensures MarkerBody(body) == QueryFrom(colon[1..], LeadingSpace(colon[1..]))
  {
  }

  lemma OpensWith(rest: string)
    ensures Opens("[[" + rest)
  {
  }

  lemma ColonRead(gap: string, query: string)
    requires AllSpace(gap) && IsQuery(query)
    ensures var tail := gap + query;
            QueryFrom(tail, LeadingSpace(tail)).Some? && Words(QueryFrom(tail, LeadingSpace(tail)).value) ==
                Words(query)
  {
    var tail := gap + query;
    assert tail[|gap|..] == query;
    SpaceTaken(gap, query);
    QueryFound(tail, LeadingSpace(tail), |gap|);
  }

  lemma ColonStripped(after: string, tail: string)
    requires AllSpace(after)
    ensures LStrip(after + (":" + tail)) == ":" + tail && (":" + tail)[1..] == tail && (":" + tail)[0] == ':'
  {
    LStripIs(after, ":" + tail);
  }

  lemma BodyIsRead(parts: Parts, tail: string)
    requires Matches(parts) && tail == parts.gap + parts.query
    ensures MarkerBody(BodyText(parts)) == QueryFrom(tail, LeadingSpace(tail))
  {
    WordStripped(parts, parts.after + (":" + tail));
    ColonStripped(parts.after, tail);
    OpensWith(parts.before + (parts.word + (parts.after + (":" + tail))));
    BodyBy(BodyText(parts), parts.word + (parts.after + (":" + tail)), ":" + tail);
  }

  predicate Open(s: string) {
    forall i | 0 <= i < |s| :: s[i] != ']'
  }

  lemma BothOpen(a: string, b: string)
    requires Open(a) && Open(b)
    ensures Open(a + b)
  {
  }

  lemma BodyIsOpen(parts: Parts)
    requires Matches(parts)
    ensures Open(BodyText(parts))
  {
    BothOpen(parts.gap, parts.query);
    BothOpen(":", parts.gap + parts.query);
    BothOpen(parts.after, ":" + (parts.gap + parts.query));
    BothOpen(parts.word, parts.after + (":" + (parts.gap + parts.query)));
    BothOpen(parts.before, parts.word + (parts.after + (":" + (parts.gap + parts.query))));
    BothOpen("[[", parts.before + (parts.word + (parts.after + (":" + (parts.gap + parts.query)))));
  }

  lemma CloseFound(body: string, rest: string)
    requires Open(body)
    ensures CloseAt(body + ("]]" + rest)) == |body|
  {
    var s := body + ("]]" + rest);
    assert forall i | 0 <= i < |body| :: s[i] == body[i];
    assert s[|body|] == ']';
    CloseIs(s, |body|);
  }

  lemma ClosedAt(body: string, rest: string)
    requires Open(body)
    ensures MarkerIn(body + ("]]" + rest)) == Ending(MarkerBody(body), |body| + 2)
  {
    CloseFound(body, rest);
    var s := body + ("]]" + rest);
    assert s[..|body|] == body && s[|body| + 1] == ']';
  }

  lemma BodyQuery(parts: Parts)
    requires Matches(parts)
    ensures MarkerBody(BodyText(parts)).Some? && Words(MarkerBody(BodyText(parts)).value) == Words(parts.query)
  {
    BodyIsRead(parts, parts.gap + parts.query);
    ColonRead(parts.gap, parts.query);
  }

  lemma FoundWith(body: string, rest: string, query: string)
    requires Open(body) && MarkerBody(body).Some? && Words(MarkerBody(body).value) == Words(query)
    ensures MarkerIn(body + ("]]" + rest)) == Some((Join(" ", Words(query)), |body| + 2))
  {
    ClosedAt(body, rest);
  }

  lemma WithBrackets(body: string, rest: string)
    ensures (body + "]]") + rest == body + ("]]" + rest)
  {
  }

  /** Whatever follows it, a text that matches the pattern is found as a marker, with its query, up to its end. */
  lemma MatchIsFound(parts: Parts, rest: string)
    requires Matches(parts)
    ensures MarkerIn(MarkerText(parts) + rest) == Some((Join(" ", Words(parts.query)), |MarkerText(parts)|))
  {
    BodyIsOpen(parts);
    BodyQuery(parts);
    FoundWith(BodyText(parts), rest, parts.query);
    WithBrackets(BodyText(parts), rest);
  }

  /** A marker text is found as a whole, and begins without whitespace. */
  lemma MarkerTextIsFound(parts: Parts)
    requires Matches(parts)
    ensures LStrip(MarkerText(parts)) == MarkerText(parts)
    ensures MarkerIn(MarkerText(parts)) == Some((Join(" ", Words(parts.query)), |MarkerText(parts)|))
  {
    MatchIsFound(parts, "");
    NothingAfter(MarkerText(parts));
    NoLeadingSpace(MarkerText(parts));
  }

  lemma NothingAfter(s: string)
    ensures s + "" == s
  {
  }

  lemma NoLeadingSpace(s: string)
    requires s != "" && s[0] == '['
    ensures LStrip(s) == s
  {
  }

  lemma TextLength(parts: Parts)
    ensures |MarkerText(parts)| == |parts.before| + |parts.word| + |parts.after| + |parts.gap| + |parts.query| + 5
  {
  }

  lemma SplitSpace(s: string) returns (space: string)
    ensures AllSpace(space) && s == space + LStrip(s)
  {
    space := s[..LeadingSpace(s)];
  }

  /** The whitespace after the colon and the query. */
  lemma TailHasParts(tail: string) returns (gap: string)
    requires QueryFrom(tail, LeadingSpace(tail)).Some?
    ensures var query := QueryFrom(tail, LeadingSpace(tail)).value;
            AllSpace(gap) && tail == gap + query && IsQuery(query)
  {
    var n := LeadingSpace(tail);
    QueryIsSuffix(tail, n);
    var query := QueryFrom(tail, n).value;
    gap := tail[..|tail| - |query|];
    assert forall i | 0 <= i < |gap| :: gap[i] == tail[..n][i];
  }

  lemma BodyUnread(body: string) returns (word: string, colon: string)
    requires MarkerBody(body).Some?
    ensures Opens(body) && LStrip(body[2..]) == word && SaysSearch(word)
    ensures LStrip(word[6..]) == colon && colon != "" && colon[0] == ':'
    ensures MarkerBody(body) == QueryFrom(colon[1..], LeadingSpace(colon[1..]))
  {
    word := LStrip(body[2..]);
    colon := LStrip(word[6..]);
  }

  lemma Reassembled(body: string, before: string, word: string, after: string, colon: string)
    requires Opens(body) && body[2..] == before + word && |word| >= 6
    requires word[6..] == after + colon && colon != "" && colon[0] == ':'
    ensures body == "[[" + (before + (word[..6] + (after + (":" + colon[1..]))))
  {
    assert word == word[..6] + word[6..];
    assert colon == ":" + colon[1..];
    assert body == "[[" + body[2..];
  }

  lemma SuffixIsOpen(a: string, b: string)
    requires Open(a + b)
    ensures ']' !in b && Open(b)
  {
    assert forall i | 0 <= i < |b| :: b[i] == (a + b)[|a| + i];
  }

  /** The parts of the body a marker was found in. */
  lemma BodyHasParts(body: string) returns (parts: Parts)
    requires MarkerBody(body).Some? && Open(body)
    ensures Matches(parts) && body == BodyText(parts)
  {
    var word, colon := BodyUnread(body);
    var before := SplitSpace(body[2..]);
    var after := SplitSpace(word[6..]);
    var gap := TailHasParts(colon[1..]);
    var query := MarkerBody(body).value;
    Reassembled(body, before, word, after, colon);
    parts := Parts(before, word[..6], after, gap, query);
    SuffixIsOpen("[[", before + (word[..6] + (after + (":" + (gap + query)))));
    SuffixIsOpen(before, word[..6] + (after + (":" + (gap + query))));
    SuffixIsOpen(word[..6], after + (":" + (gap + query)));
    SuffixIsOpen(after, ":" + (gap + query));
    SuffixIsOpen(":", gap + query);
    SuffixIsOpen(gap, query);
  }

  lemma UpToBrackets(opening: string, close: nat)
    requires close + 1 < |opening| && opening[close] == ']' && opening[close + 1] == ']'
    ensures opening[..close] + "]]" <= opening
  {
  }

  lemma MarkerUnread(opening: string) returns (body: string)
    requires MarkerIn(opening).Some?
    ensures MarkerBody(body).Some? && Open(body) && body + "]]" <= opening
  {
    var close := CloseAt(opening);
    body := opening[..close];
    EndingShape(MarkerBody(body), close + 2);
    UpToBrackets(opening, close);
  }

  /** What the pattern describes and what is found are the same: there is one exactly when there is the other, and every
      reading of the pattern gives the query and the end that are found. */
  lemma FoundExactlyWhenMatched(opening: string)
    ensures MarkerIn(opening).Some? <==> exists parts :: Matches(parts) && MarkerText(parts) <= opening
    ensures forall parts | Matches(parts) && MarkerText(parts) <= opening ::
              MarkerIn(opening) == Some((Join(" ", Words(parts.query)), |MarkerText(parts)|))
  {
    forall parts | Matches(parts) && MarkerText(parts) <= opening
      ensures MarkerIn(opening) == Some((Join(" ", Words(parts.query)), |MarkerText(parts)|))
    {
      var rest := opening[|MarkerText(parts)|..];
      assert opening == MarkerText(parts) + rest;
      MatchIsFound(parts, rest);
    }
    if MarkerIn(opening).Some? {
      var body := MarkerUnread(opening);
      var parts := BodyHasParts(body);
      assert MarkerText(parts) == body + "]]";
    }
  }

  /** A query is two to three hundred characters of the reply, before its whitespace is collapsed. */
  lemma {:induction false} QueryIsSuffix(tail: string, start: nat)
    requires start <= |tail|
    ensures var q := QueryFrom(tail, start);
            q.Some? ==>
              && IsQuery(q.value) && |tail| - start <= |q.value| <= |tail|
              && q.value == tail[|tail| - |q.value|..]
  {
    if !IsQuery(tail[start..]) && start > 0 {
      QueryIsSuffix(tail, start - 1);
    }
  }
}
