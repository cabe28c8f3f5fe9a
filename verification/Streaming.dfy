/** Reading a model reply as it is written: the opening is held back until it is clear that it is not
    the `[[search: ...]]` marker (apps/api/app/conversation/streaming.py). */
module Streaming {
  import opened Values
  import opened Text
  import opened SearchMarker

  const MAX_MARKER_CHARS: nat := 320

  /** Finds a marker at the start of a text without leading whitespace: its query and where it ends. */
  type Recogniser = string -> Option<(string, nat)>

  function QueryOf(find: Recogniser, reply: string): Option<string> {
    match find(LStrip(reply))
    case None => None
    case Some((query, _)) => Some(query)
  }

  /** The length of the marker a reply begins with, after leading whitespace. */
  function MarkerLength(find: Recogniser, reply: string): nat {
    match find(LStrip(reply))
    case None => 0
    case Some((_, end)) => end
  }

  /** A marker opens with two brackets, shows in no beginning that stops before its end, and in every
      text that contains it whole, whatever follows. */
  ghost predicate Decides(find: Recogniser) {
    && (forall o: string | find(o).Some? :: find(o).value.1 <= |o| && Opens(o))
    && (forall o: string, k: nat | k <= |o| && find(o).Some? :: ShowsAt(find, o, k))
    && (forall o: string, k: nat | k <= |o| && find(o[..k]).Some? :: find(o) == find(o[..k]))
  }

  ghost predicate ShowsAt(find: Recogniser, o: string, k: nat)
    requires k <= |o| && find(o).Some?
  {
    if k >= find(o).value.1 then find(o[..k]) == find(o) else find(o[..k]).None? && !HasDoubleClose(o[..k])
  }

  lemma SearchMarkerDecides()
    ensures Decides(MarkerIn)
  {
    forall o: string | MarkerIn(o).Some? ensures MarkerIn(o).value.1 <= |o| && Opens(o) {
      MarkerShape(o);
    }
    forall o: string, k: nat | k <= |o| && MarkerIn(o).Some? ensures ShowsAt(MarkerIn, o, k) {
      MarkerShape(o);
      MarkerIsLocal(o, k);
    }
    forall o: string, k: nat | k <= |o| && MarkerIn(o[..k]).Some? ensures MarkerIn(o) == MarkerIn(o[..k]) {
      MarkerIsLocal(o, k);
    }
  }

  // ------------------------------------------------------------- the reader

  /** The reader's variables: what was heard, the opening held back, and what was spoken. */
  datatype Ear = Ear(heard: string, held: string, released: bool, spoken: seq<string>, search: Option<string>)

  function Silent(): Ear { Ear("", "", false, [], None) }

  /** One delta of the reply. */
  function Hear(find: Recogniser, e: Ear, delta: string, detect: bool): Ear {
    if e.search.Some? || delta == "" then e
    else
      var heard := e.heard + delta;
      if e.released then e.(heard := heard, spoken := e.spoken + [delta])
      else
        var held := e.held + delta;
        Heed(find, e.(heard := heard, held := held), LStrip(held), detect)
  }

  /** What is decided about an opening: to wait for more of it, to speak it, or that it asks for a search. */
  datatype Verdict = Wait | Speak | Search(query: string)

  function Judge(find: Recogniser, opening: string, detect: bool): Verdict {
    if |opening| < 2 then Wait
    else if detect && Opens(opening) then
      var query := QueryOf(find, opening);
      if query.Some? then Search(query.value)
      else if HasDoubleClose(opening) || |opening| > MAX_MARKER_CHARS then Speak
      else Wait
    else Speak
  }

  function Heed(find: Recogniser, e: Ear, opening: string, detect: bool): Ear {
    match Judge(find, opening, detect)
    case Wait => e
    case Speak => e.(released := true, spoken := e.spoken + [e.held])
    case Search(query) => e.(search := Some(query))
  }

  function Listen(find: Recogniser, deltas: seq<string>, detect: bool): Ear {
    if deltas == [] then Silent() else Hear(find, Listen(find, deltas[..|deltas| - 1], detect), deltas[|deltas| - 1],
        detect)
  }

  /** The end of a reply that ended by itself. */
  function Finish(find: Recogniser, e: Ear, detect: bool): Ear {
    if e.search.Some? || e.released || e.held == "" then e
    else
      var query := QueryOf(find, LStrip(e.held));
      if detect && query.Some? then e.(search := query) else e.(spoken := e.spoken + [e.held])
  }

  datatype Ending = Completed | TimedOut | ProviderFailed

  datatype StreamError = TimeoutFirst | TimeoutTotal | Provider

  datatype StreamOutcome = StreamOutcome(text: string, emittedAny: bool, search: Option<string>,
      error: Option<StreamError>)

  /** The query that splitting an opening reports. */
  method Searched(opening: string) returns (query: Option<string>)
    ensures query == QueryOf(MarkerIn, opening)
  {
    var (found, _) := SplitSearchRequest(opening);
    query := found;
  }

  method Judged(opening: string, detect: bool) returns (verdict: Verdict)
    ensures verdict == Judge(MarkerIn, opening, detect)
  {
    if |opening| < 2 {
      return Wait;
    }
    if detect && Opens(opening) {
      var query := Searched(opening);
      if query.Some? {
        return Search(query.value);
      }
      return if HasDoubleClose(opening) || |opening| > MAX_MARKER_CHARS then Speak else Wait;
    }
    return Speak;
  }

  /** A reader's outcome: an early end is an error unless a search was already found. */
  predicate Reports(outcome: StreamOutcome, spoken: seq<string>, e: Ear, ending: Ending) {
    && spoken == e.spoken
    && outcome.text == e.heard && outcome.search == e.search
    && (outcome.emittedAny <==> spoken != [])
    && (outcome.error.Some? <==> !ending.Completed? && e.search.None?)
    && (outcome.error.Some? ==>
        outcome.error.value == (if ending.ProviderFailed? then Provider else if e.heard == "" then TimeoutFirst
        else TimeoutTotal))
  }

  /** Deltas arrive until the stream ends, by itself or early. */
  method StreamReply(deltas: seq<string>, ending: Ending, detect: bool)
      returns (outcome: StreamOutcome, spoken: seq<string>)
    ensures var e := Listen(MarkerIn, deltas, detect);
            Reports(outcome, spoken, if ending.Completed? then Finish(MarkerIn, e, detect) else e, ending)
  {
    var parts, held, released, emitted := "", "", false, false;
    spoken := [];
    for i := 0 to |deltas|
      invariant Listen(MarkerIn, deltas[..i], detect) == Ear(parts, held, released, spoken, None)
      invariant emitted <==> spoken != []
    {
      var text := deltas[i];
      ghost var next := Hear(MarkerIn, Ear(parts, held, released, spoken, None), text, detect);
      OneMoreDelta(MarkerIn, deltas, i, detect);
      if text == "" {
        continue;
      }
      parts := parts + text;
      if released {
        emitted, spoken := true, spoken + [text];
        assert next == Ear(parts, held, released, spoken, None);
        continue;
      }
      held := held + text;
      var verdict := Judged(LStrip(held), detect);
      if verdict.Search? {
        SearchStays(MarkerIn, deltas, i + 1, detect);
        return StreamOutcome(parts, emitted, Some(verdict.query), None), spoken;
      }
      if verdict.Speak? {
        released := true;
        emitted, spoken := true, spoken + [held];
      }
      assert next == Ear(parts, held, released, spoken, None);
    }
    assert deltas[..|deltas|] == deltas;
    outcome, spoken := EndOfReply(parts, held, released, spoken, ending, detect);
  }

  method EndOfReply(parts: string, held: string, released: bool, soFar: seq<string>, ending: Ending, detect: bool)
    returns (outcome: StreamOutcome, spoken: seq<string>)
    ensures var e := Ear(parts, held, released, soFar, None);
            Reports(outcome, spoken, if ending.Completed? then Finish(MarkerIn, e, detect) else e, ending)
  {
    spoken := soFar;
    var emitted := soFar != [];
    if ending.ProviderFailed? {
      return StreamOutcome(parts, emitted, None, Some(Provider)), spoken;
    }
    if ending.TimedOut? {
      return StreamOutcome(parts, emitted, None, Some(if parts == "" then TimeoutFirst else TimeoutTotal)), spoken;
    }
    if !released && held != "" {
      var query := Searched(LStrip(held));
      if detect && query.Some? {
        return StreamOutcome(parts, emitted, query, None), spoken;
      }
      emitted, spoken := true, spoken + [held];
    }
    return StreamOutcome(parts, emitted, None, None), spoken;
  }

  lemma OneMoreDelta(find: Recogniser, deltas: seq<string>, i: nat, detect: bool)
    requires i < |deltas|
    ensures Listen(find, deltas[..i + 1], detect) == Hear(find, Listen(find, deltas[..i], detect), deltas[i], detect)
  {
    assert deltas[..i + 1][..i] == deltas[..i];
  }

  lemma {:induction false} SearchStays(find: Recogniser, deltas: seq<string>, i: nat, detect: bool)
    requires i <= |deltas| && Listen(find, deltas[..i], detect).search.Some?
    ensures Listen(find, deltas, detect) == Listen(find, deltas[..i], detect)
    decreases |deltas| - i
  {
    if i < |deltas| {
      assert deltas[..i + 1][..i] == deltas[..i];
      SearchStays(find, deltas, i + 1, detect);
    } else {
      assert deltas[..i] == deltas;
    }
  }

  // -------------------------------------------------------------- properties

  /** What the reader knows after any number of deltas. */
  ghost predicate Knows(find: Recogniser, e: Ear, t: string, detect: bool) {
    if e.search.Some? then detect && e.spoken == [] && e.heard <= t && QueryOf(find, e.heard) == e.search
    else
      && e.heard == t
      && (e.released ==> Concat(e.spoken) == t && t != "" && WasRuledOut(find, t, detect))
      && (!e.released ==> e.held == t && e.spoken == [])
  }

  /** Why an opening is no longer held back: it is no beginning of a marker that fits. */
  ghost predicate RuledOut(find: Recogniser, opening: string, detect: bool) {
    && |opening| >= 2
    && (detect && Opens(opening) ==> find(opening).None? && (HasDoubleClose(opening) || |opening| > MAX_MARKER_CHARS))
  }

  ghost predicate WasRuledOut(find: Recogniser, t: string, detect: bool) {
    exists n | 0 <= n <= |t| :: RuledOut(find, LStrip(t[..n]), detect)
  }

  lemma {:induction false} ListenKnows(find: Recogniser, deltas: seq<string>, detect: bool)
    ensures Knows(find, Listen(find, deltas, detect), Concat(deltas), detect)
  {
    if deltas != [] {
      var front, delta := deltas[..|deltas| - 1], deltas[|deltas| - 1];
      ListenKnows(find, front, detect);
      assert deltas == front + [delta];
      ConcatSnoc(front, delta);
      HearKnows(find, Listen(find, front, detect), Concat(front), delta, detect);
    }
  }

  lemma HearKnows(find: Recogniser, e: Ear, t: string, delta: string, detect: bool)
    requires Knows(find, e, t, detect)
    ensures Knows(find, Hear(find, e, delta, detect), t + delta, detect)
  {
    var t' := t + delta;
    if e.search.Some? || delta == "" {
      assert delta == "" ==> t' == t;
    } else if e.released {
      ConcatSnoc(e.spoken, delta);
      var n :| 0 <= n <= |t| && RuledOut(find, LStrip(t[..n]), detect);
      assert t'[..n] == t[..n];
    } else {
      HearHeld(find, e, delta, detect);
    }
  }

  lemma HearHeld(find: Recogniser, e: Ear, delta: string, detect: bool)
    requires e.search.None? && delta != "" && !e.released && e.held == e.heard && e.spoken == []
    ensures Knows(find, Hear(find, e, delta, detect), e.heard + delta, detect)
  {
    var t := e.heard + delta;
    LStripTwice(t);
    RuledOutNow(find, t, detect);
    HeedKnows(find, e.(heard := t, held := t), LStrip(t), detect);
  }

  lemma RuledOutNow(find: Recogniser, t: string, detect: bool)
    ensures RuledOut(find, LStrip(t), detect) ==> WasRuledOut(find, t, detect)
  {
    assert t[..|t|] == t;
  }

  lemma HeedKnows(find: Recogniser, e: Ear, opening: string, detect: bool)
    requires e.search.None? && !e.released && e.held == e.heard != "" && e.spoken == []
    requires find(LStrip(opening)) == find(opening) && QueryOf(find, opening) == QueryOf(find, e.heard)
    requires RuledOut(find, opening, detect) ==> WasRuledOut(find, e.heard, detect)
    ensures Knows(find, Heed(find, e, opening, detect), e.heard, detect)
  {
    OneText(e.heard);
  }

  lemma OneText(t: string)
    ensures Concat([t]) == t && [] + [t] == [t]
  {
    assert Concat([t]) == t + Concat([]);
  }

  /** What a reader that heard the whole reply should have done. */
  ghost predicate Agrees(find: Recogniser, deltas: seq<string>, detect: bool) {
    var whole := Concat(deltas);
    var e := Finish(find, Listen(find, deltas, detect), detect);
    if detect && QueryOf(find, whole).Some? then e.search == QueryOf(find, whole) && e.spoken == []
    else e.search == None && Concat(e.spoken) == whole
  }

  lemma SearchIsInTheReply(find: Recogniser, heard: string, whole: string)
    requires Decides(find) && heard <= whole && QueryOf(find, heard).Some?
    ensures QueryOf(find, whole) == QueryOf(find, heard)
  {
    assert heard == whole[..|heard|];
    OpeningOfPrefix(whole, |heard|);
    var o, k := LStrip(whole), |LStrip(heard)|;
    assert find(LStrip(heard)).Some? && Opens(LStrip(heard));
    assert find(o[..k]).Some?;
  }

  /** Without a marker, or without looking for one, the spoken texts are the reply. */
  lemma NoMarkerIsSpoken(find: Recogniser, deltas: seq<string>, detect: bool)
    requires Decides(find)
    requires !detect || QueryOf(find, Concat(deltas)).None?
    ensures Agrees(find, deltas, detect)
  {
    ListenKnows(find, deltas, detect);
    NothingToFind(find, Listen(find, deltas, detect), Concat(deltas), detect);
    FinishSpeaks(find, Listen(find, deltas, detect), Concat(deltas), detect);
  }

  lemma NothingToFind(find: Recogniser, e: Ear, whole: string, detect: bool)
    requires Decides(find) && Knows(find, e, whole, detect) && (!detect || QueryOf(find, whole).None?)
    ensures e.search.None?
  {
    if e.search.Some? {
      SearchIsInTheReply(find, e.heard, whole);
    }
  }

  lemma FinishSpeaks(find: Recogniser, e: Ear, whole: string, detect: bool)
    requires Knows(find, e, whole, detect) && e.search.None? && (!detect || QueryOf(find, whole).None?)
    ensures var f := Finish(find, e, detect); f.search == None && Concat(f.spoken) == whole
  {
    LStripTwice(whole);
    OneText(whole);
  }

  /** No beginning of a reply with a marker that fits is ruled out. */
  lemma ShortMarkerIsNotRuledOut(find: Recogniser, whole: string, n: nat)
    requires Decides(find) && n <= |whole|
    requires QueryOf(find, whole).Some? && MarkerLength(find, whole) <= MAX_MARKER_CHARS + 1
    ensures RuledOut(find, LStrip(whole[..n]), true) ==> find(LStrip(whole[..n])).Some?
  {
    var o, p := LStrip(whole), LStrip(whole[..n]);
    OpeningOfPrefix(whole, n);
    if p != "" {
      assert p == o[..|p|];
      assert ShowsAt(find, o, |p|);
      assert |p| >= 2 ==> p[0] == o[0] && p[1] == o[1];
    }
  }

  /** A marker that fits is recognised however the reply is cut, and nothing is spoken. */
  lemma ShortMarkerIsFound(find: Recogniser, deltas: seq<string>)
    requires Decides(find)
    requires QueryOf(find, Concat(deltas)).Some? && MarkerLength(find, Concat(deltas)) <= MAX_MARKER_CHARS + 1
    ensures Agrees(find, deltas, true)
  {
    var whole := Concat(deltas);
    var e := Listen(find, deltas, true);
    ListenKnows(find, deltas, true);
    if e.search.Some? {
      SearchIsInTheReply(find, e.heard, whole);
    } else {
      forall n | 0 <= n <= |whole| ensures !RuledOut(find, LStrip(whole[..n]), true) {
        ShortMarkerIsNotRuledOut(find, whole, n);
        OpeningOfPrefix(whole, n);
      }
      assert !WasRuledOut(find, whole, true);
      LStripTwice(whole);
    }
  }

  /** A longer marker is spoken when a delta ends one character short of where it must have closed. */
  function UnluckyCut(reply: string): seq<string> {
    var n := LeadingSpace(reply) + MAX_MARKER_CHARS + 1;
    if n <= |reply| then [reply[..n], reply[n..]] else [reply]
  }

  /** The beginning that is cut off is long, open, and not yet closed. */
  lemma LongMarkerBeginning(find: Recogniser, reply: string, n: nat)
    requires Decides(find) && MarkerLength(find, reply) > MAX_MARKER_CHARS + 1
    requires n == LeadingSpace(reply) + MAX_MARKER_CHARS + 1
    ensures n < |reply| && |LStrip(reply[..n])| > MAX_MARKER_CHARS && Opens(LStrip(reply[..n]))
            && find(LStrip(reply[..n])).None?
  {
    var o, lead := LStrip(reply), LeadingSpace(reply);
    assert find(o).Some? && n < |reply|;
    var t := reply[..n];
    assert forall i | 0 <= i < lead :: reply[..lead][i] == t[i];
    assert t[lead] == reply[lead];
    LeadingSpaceIs(t, lead);
    var p := LStrip(t);
    assert p == o[..MAX_MARKER_CHARS + 1];
    assert p[0] == o[0] && p[1] == o[1];
    assert ShowsAt(find, o, MAX_MARKER_CHARS + 1);
  }

  lemma LongOpeningIsSpoken(find: Recogniser, t: string, opening: string)
    requires opening == LStrip(t) && |opening| > MAX_MARKER_CHARS && Opens(opening) && QueryOf(find, opening).None?
    ensures Hear(find, Silent(), t, true) == Ear(t, t, true, [t], None)
  {
    assert "" + t == t && [] + [t] == [t];
  }

  lemma NothingFound(find: Recogniser, t: string)
    requires find(LStrip(t)).None?
    ensures QueryOf(find, LStrip(t)).None?
  {
    LStripTwice(t);
  }

  lemma LongMarkerIsMissed(find: Recogniser, reply: string)
    requires Decides(find) && MarkerLength(find, reply) > MAX_MARKER_CHARS + 1
    ensures Concat(UnluckyCut(reply)) == reply && !Agrees(find, UnluckyCut(reply), true)
  {
    var n := LeadingSpace(reply) + MAX_MARKER_CHARS + 1;
    LongMarkerBeginning(find, reply, n);
    CutMarkerIsMissed(find, reply, n);
  }

  lemma CutMarkerIsMissed(find: Recogniser, reply: string, n: nat)
    requires QueryOf(find, reply).Some? && n <= |reply|
    requires |LStrip(reply[..n])| > MAX_MARKER_CHARS && Opens(LStrip(reply[..n])) && find(LStrip(reply[..n])).None?
    ensures Concat([reply[..n], reply[n..]]) == reply && !Agrees(find, [reply[..n], reply[n..]], true)
  {
    var t, rest := reply[..n], reply[n..];
    assert t + rest == reply;
    SpokenThenHeard(find, t, LStrip(t), rest);
    ReleasedMarkerDisagrees(find, [t, rest]);
  }

  lemma SpokenThenHeard(find: Recogniser, t: string, opening: string, rest: string)
    requires opening == LStrip(t) && |opening| > MAX_MARKER_CHARS && Opens(opening) && find(opening).None?
    ensures Concat([t, rest]) == t + rest
    ensures var e := Listen(find, [t, rest], true); e.released && e.search.None?
  {
    NothingFound(find, t);
    LongOpeningIsSpoken(find, t, opening);
    TwoDeltas(find, t, rest);
    ReleasedStays(find, Ear(t, t, true, [t], None), rest, true);
  }

  lemma ReleasedStays(find: Recogniser, e: Ear, delta: string, detect: bool)
    requires e.released && e.search.None?
    ensures var after := Hear(find, e, delta, detect); after.released && after.search.None?
  {
  }

  /** Once the opening was spoken, no search is reported. */
  lemma ReleasedMarkerDisagrees(find: Recogniser, deltas: seq<string>)
    requires QueryOf(find, Concat(deltas)).Some?
    requires var e := Listen(find, deltas, true); e.released && e.search.None?
    ensures !Agrees(find, deltas, true)
  {
  }

  lemma TwoDeltas(find: Recogniser, t: string, rest: string)
    ensures Concat([t, rest]) == t + rest
    ensures Listen(find, [t, rest], true) == Hear(find, Hear(find, Silent(), t, true), rest, true)
  {
    var deltas := [t, rest];
    assert deltas[1..] == [rest] && [rest][1..] == [];
    assert Concat([rest]) == rest + Concat([]);
    assert deltas[..1] == [t] && [t][..0] == [];
    assert Listen(find, [t], true) == Hear(find, Silent(), t, true);
  }

  /** Streaming equals batch for every way of cutting a reply exactly when the reply has no marker,
      or one of at most 321 characters after leading whitespace. */
  lemma StreamingEqualsBatch(reply: string)
    ensures (forall deltas | Concat(deltas) == reply :: Agrees(MarkerIn, deltas, true)) <==>
            MarkerLength(MarkerIn, reply) <= MAX_MARKER_CHARS + 1
  {
    SearchMarkerDecides();
    AnyCutAgrees(MarkerIn, reply);
  }

  lemma AnyCutAgrees(find: Recogniser, reply: string)
    requires Decides(find)
    ensures (forall deltas | Concat(deltas) == reply :: Agrees(find, deltas, true)) <==>
            MarkerLength(find, reply) <= MAX_MARKER_CHARS + 1
  {
    if MarkerLength(find, reply) <= MAX_MARKER_CHARS + 1 {
      forall deltas | Concat(deltas) == reply ensures Agrees(find, deltas, true) {
        if QueryOf(find, reply).Some? {
          ShortMarkerIsFound(find, deltas);
        } else {
          NoMarkerIsSpoken(find, deltas, true);
        }
      }
    } else {
      LongMarkerIsMissed(find, reply);
    }
  }

  /** The batch result is the one `split_search_request` gives for the whole reply. */
  lemma BatchIsTheSplit(reply: string)
    ensures QueryOf(MarkerIn, reply) == SplitSearchRequest(reply).0
  {
  }

  /** When the stream ends early, what was spoken is a beginning of what arrived. */
  lemma EarlyEndSpeaksAPrefix(deltas: seq<string>, detect: bool)
    ensures Concat(Listen(MarkerIn, deltas, detect).spoken) <= Concat(deltas)
    ensures Listen(MarkerIn, deltas, detect).heard <= Concat(deltas)
  {
    ListenKnows(MarkerIn, deltas, detect);
  }

  /** A marker whose opening brackets are followed by `n` blanks. */
  function Spread(n: nat): Parts {
    Parts(seq(n, i => ' '), "search", "", "", "ab")
  }

  lemma SpreadIsFound(n: nat)
    ensures var reply := MarkerText(Spread(n)); |reply| == n + 13 && MarkerLength(MarkerIn, reply) == n + 13
  {
    SpreadMatches(n);
    MarkerTextIsFound(Spread(n));
    TextLength(Spread(n));
  }

  lemma SpreadMatches(n: nat)
    ensures Matches(Spread(n))
  {
  }

  /** Markers that fit and markers that do not both exist: with too many blanks, some cut of the reply speaks the
      marker. */
  lemma MarkersOfEveryLength(n: nat)
    ensures var reply := MarkerText(Spread(n));
            (forall deltas | Concat(deltas) == reply :: Agrees(MarkerIn, deltas, true)) <==> n <= 308
  {
    SpreadIsFound(n);
    StreamingEqualsBatch(MarkerText(Spread(n)));
  }
}
