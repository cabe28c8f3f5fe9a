/** When the reader of a streamed reply speaks: at every moment, either nothing yet or all it has heard
    (apps/api/app/conversation/streaming.py). */
module Speaking {
  import opened Values
  import opened Text
  import opened SearchMarker
  import opened Streaming

  /** What was heard when some delta had arrived rules a search marker out. */
  ghost predicate RuledOutByDelta(find: Recogniser, deltas: seq<string>, detect: bool) {
    exists i | 0 <= i <= |deltas| :: RuledOut(find, LStrip(Concat(deltas[..i])), detect)
  }

  /** Until a search is found, the reader has spoken nothing, or all it has heard: all exactly from the first delta
      on with which the opening is no beginning of a marker that fits. */
  ghost predicate SpeaksExactlyWhenRuledOut(find: Recogniser, deltas: seq<string>, detect: bool) {
    var e := Listen(find, deltas, detect);
    && e.heard == Concat(deltas)
    && (e.released <==> RuledOutByDelta(find, deltas, detect))
    && if e.released then Concat(e.spoken) == Concat(deltas) else e.spoken == [] && e.held == Concat(deltas)
  }

  lemma EarlierDeltas(front: seq<string>, delta: string, i: nat)
    requires i <= |front|
    ensures (front + [delta])[..i] == front[..i] && (front + [delta])[..|front| + 1] == front + [delta]
  {
  }

  /** An opening that is ruled out when the last delta arrives, or was before. */
  lemma OneMoreDeltaRulesOut(find: Recogniser, front: seq<string>, delta: string, detect: bool)
    ensures RuledOutByDelta(find, front + [delta], detect) <==>
            RuledOutByDelta(find, front, detect) || RuledOut(find, LStrip(Concat(front) + delta), detect)
  {
    ConcatSnoc(front, delta);
    if RuledOutByDelta(find, front + [delta], detect) {
      var i :| 0 <= i <= |front| + 1 && RuledOut(find, LStrip(Concat((front + [delta])[..i])), detect);
      EarlierDeltas(front, delta, if i <= |front| then i else 0);
    }
    if RuledOutByDelta(find, front, detect) {
      var i :| 0 <= i <= |front| && RuledOut(find, LStrip(Concat(front[..i])), detect);
      EarlierDeltas(front, delta, i);
    }
    EarlierDeltas(front, delta, 0);
  }

  /** A delta without text rules out nothing new. */
  lemma NothingNew(find: Recogniser, front: seq<string>, detect: bool)
    ensures RuledOut(find, LStrip(Concat(front)), detect) ==> RuledOutByDelta(find, front, detect)
  {
    assert front[..|front|] == front;
  }

  /** The verdict on an opening that asks for no search is to speak it exactly when it is ruled out. */
  lemma SpeaksWhenRuledOut(find: Recogniser, opening: string, detect: bool)
    requires LStrip(opening) == opening && !Judge(find, opening, detect).Search?
    ensures Judge(find, opening, detect).Speak? <==> RuledOut(find, opening, detect)
  {
  }

  lemma HeldThenHeard(find: Recogniser, e: Ear, t: string, delta: string, detect: bool)
    requires e.search.None? && !e.released && e.held == e.heard == t && e.spoken == [] && delta != ""
    requires Hear(find, e, delta, detect).search.None?
    ensures var next := Hear(find, e, delta, detect);
            && next.heard == t + delta && (next.released <==> RuledOut(find, LStrip(t + delta), detect))
            && if next.released then next.spoken == [t + delta] else next.spoken == [] && next.held == t + delta
  {
    LStripTwice(t + delta);
    SpeaksWhenRuledOut(find, LStrip(t + delta), detect);
    assert [] + [t + delta] == [t + delta];
  }

  lemma {:induction false} SpeaksAtOnce(find: Recogniser, deltas: seq<string>, detect: bool)
    requires Listen(find, deltas, detect).search.None?
    ensures SpeaksExactlyWhenRuledOut(find, deltas, detect)
    decreases |deltas|
  {
    if deltas == [] {
      assert Concat(deltas[..0]) == "";
    } else {
      var front, delta := deltas[..|deltas| - 1], deltas[|deltas| - 1];
      SpeaksAtOnce(find, front, detect);
      DeltaSpeaks(find, front, delta, detect);
      DeltaAdds(find, deltas, front, delta, detect);
    }
  }

  lemma DeltaAdds(find: Recogniser, deltas: seq<string>, front: seq<string>, delta: string, detect: bool)
    requires deltas == front + [delta]
    ensures Concat(deltas) == Concat(front) + delta
    ensures RuledOutByDelta(find, deltas, detect) <==>
            RuledOutByDelta(find, front, detect) || RuledOut(find, LStrip(Concat(front) + delta), detect)
  {
    ConcatSnoc(front, delta);
    OneMoreDeltaRulesOut(find, front, delta, detect);
  }

  lemma DeltaSpeaks(find: Recogniser, front: seq<string>, delta: string, detect: bool)
    requires SpeaksExactlyWhenRuledOut(find, front, detect) && Listen(find, front, detect).search.None?
    requires Hear(find, Listen(find, front, detect), delta, detect).search.None?
    ensures var e := Hear(find, Listen(find, front, detect), delta, detect);
            var t := Concat(front) + delta;
            && e.heard == t
            && (e.released <==> RuledOutByDelta(find, front, detect) || RuledOut(find, LStrip(t), detect))
            && if e.released then Concat(e.spoken) == t else e.spoken == [] && e.held == t
  {
    var e, t := Listen(find, front, detect), Concat(front) + delta;
    if delta == "" {
      assert t == Concat(front);
      NothingNew(find, front, detect);
    } else if e.released {
      ConcatSnoc(e.spoken, delta);
    } else {
      HeldThenHeard(find, e, Concat(front), delta, detect);
      OneText(t);
    }
  }

  /** At every moment without a search: all that was heard is spoken exactly when there is nothing, or a delta has come
      with which the opening is no beginning of a marker that fits. */
  lemma SpokenExactlyWhenRuledOut(deltas: seq<string>, detect: bool)
    requires Listen(MarkerIn, deltas, detect).search.None?
    ensures var spoken := Listen(MarkerIn, deltas, detect).spoken;
            && (Concat(spoken) == Concat(deltas) <==>
                  Concat(deltas) == "" || RuledOutByDelta(MarkerIn, deltas, detect))
            && (spoken == [] || Concat(spoken) == Concat(deltas))
  {
    SpeaksAtOnce(MarkerIn, deltas, detect);
    assert Concat([]) == "";
  }

  /** A ruled out opening is not the beginning of a marker that fits, whatever follows. */
  lemma RuledOutHasNoMarker(o: string, n: nat)
    requires n <= |o| && LStrip(o) == o && RuledOut(MarkerIn, o[..n], true)
    ensures MarkerIn(o).Some? ==> MarkerIn(o).value.1 > MAX_MARKER_CHARS + 1
  {
    SearchMarkerDecides();
    if MarkerIn(o).Some? {
      assert Opens(o) && ShowsAt(MarkerIn, o, n);
      assert o[..n][0] == o[0] && o[..n][1] == o[1];
    }
  }

  /** A reply that does not begin with the marker's brackets is spoken as it arrives, from its second character on. */
  lemma PlainRepliesAreSpokenAtOnce(deltas: seq<string>, detect: bool)
    requires var opening := LStrip(Concat(deltas)); |opening| >= 2 && (detect ==> !Opens(opening))
    ensures var e := Listen(MarkerIn, deltas, detect);
            e.search.None? && Concat(e.spoken) == Concat(deltas) && e.spoken != []
  {
    SearchMarkerDecides();
    ListenKnows(MarkerIn, deltas, detect);
    NoBracketsNoQuery(Concat(deltas));
    NothingToFind(MarkerIn, Listen(MarkerIn, deltas, detect), Concat(deltas), detect);
    SpeaksAtOnce(MarkerIn, deltas, detect);
    NothingNew(MarkerIn, deltas, detect);
    assert Concat([]) == "";
  }

  lemma NoBracketsNoQuery(reply: string)
    ensures !Opens(LStrip(reply)) ==> QueryOf(MarkerIn, reply).None?
  {
    SearchMarkerDecides();
  }

  /** What is held back is still waited for. */
  lemma {:induction false} HeldWaits(find: Recogniser, deltas: seq<string>, detect: bool)
    requires var e := Listen(find, deltas, detect); e.search.None? && !e.released && e.heard != ""
    ensures Judge(find, LStrip(Listen(find, deltas, detect).heard), detect).Wait?
    decreases |deltas|
  {
    var front, delta := deltas[..|deltas| - 1], deltas[|deltas| - 1];
    SpeaksAtOnce(find, front, detect);
    if delta == "" {
      HeldWaits(find, front, detect);
    } else {
      LStripTwice(Listen(find, front, detect).heard + delta);
    }
  }

  lemma FoundIsNoWait(find: Recogniser, reply: string)
    requires Decides(find) && QueryOf(find, reply).Some?
    ensures !Judge(find, LStrip(reply), true).Wait?
  {
    LStripTwice(reply);
  }

  /** No delta has ruled out a marker that fits. */
  lemma FittingIsNotRuledOut(find: Recogniser, deltas: seq<string>)
    requires Decides(find)
    requires QueryOf(find, Concat(deltas)).Some? && MarkerLength(find, Concat(deltas)) <= MAX_MARKER_CHARS + 1
    ensures !RuledOutByDelta(find, deltas, true)
  {
    forall i | 0 <= i <= |deltas| ensures !RuledOut(find, LStrip(Concat(deltas[..i])), true) {
      assert deltas == deltas[..i] + deltas[i..];
      ConcatAppend(deltas[..i], deltas[i..]);
      assert Concat(deltas)[..|Concat(deltas[..i])|] == Concat(deltas[..i]);
      ShortMarkerIsNotRuledOut(find, Concat(deltas), |Concat(deltas[..i])|);
    }
  }

  /** A search is found at the first delta with which the whole marker is there, if it fits; nothing was spoken
      before. */
  lemma SearchesAreFoundAtOnce(deltas: seq<string>)
    requires QueryOf(MarkerIn, Concat(deltas)).Some?
    requires MarkerLength(MarkerIn, Concat(deltas)) <= MAX_MARKER_CHARS + 1
    ensures var e := Listen(MarkerIn, deltas, true);
            e.search == QueryOf(MarkerIn, Concat(deltas)) && e.spoken == []
  {
    SearchMarkerDecides();
    ListenKnows(MarkerIn, deltas, true);
    if Listen(MarkerIn, deltas, true).search.Some? {
      SearchIsInTheReply(MarkerIn, Listen(MarkerIn, deltas, true).heard, Concat(deltas));
    } else {
      SpeaksAtOnce(MarkerIn, deltas, true);
      FittingIsNotRuledOut(MarkerIn, deltas);
      FoundIsNoWait(MarkerIn, Concat(deltas));
      NothingIsFoundInNothing();
      HeldWaits(MarkerIn, deltas, true);
    }
  }

  lemma NothingIsFoundInNothing()
    ensures QueryOf(MarkerIn, "").None?
  {
    NoBracketsNoQuery("");
  }

  /** Splitting takes a marker off the front of a reply, whatever its whitespace, and leaves any other reply as it
      is. */
  lemma SplitTakesTheMarkerOff(reply: string, space: string, parts: Parts, rest: string)
    requires AllSpace(space) && Matches(parts) && reply == space + (MarkerText(parts) + rest)
    ensures SplitSearchRequest(reply) == (Some(Join(" ", Words(parts.query))), Strip(rest))
  {
    LStripIs(space, MarkerText(parts) + rest);
    MatchIsFound(parts, rest);
    assert (MarkerText(parts) + rest)[|MarkerText(parts)|..] == rest;
  }

  lemma WithoutMarkerNothingIsTaken(reply: string)
    requires forall parts | Matches(parts) :: !(MarkerText(parts) <= LStrip(reply))
    ensures SplitSearchRequest(reply) == (None, Strip(reply))
  {
    FoundExactlyWhenMatched(LStrip(reply));
  }
}
