/** The order of streamed events (apps/api/app/domain/streaming.py, `StreamSequenceValidator`). */
module Events {
  import opened Values

  datatype Kind = MessageStart | Citation | Warning | Delta | Answer | MessageEnd | Error | Done

  datatype Event = Event(sequence: int, kind: Kind)

  predicate Content(kind: Kind) {
    kind.Citation? || kind.Warning? || kind.Delta? || kind.Answer?
  }

  // ------------------------------------------------------------------- the validator

  datatype State = State(last: int, started: bool, ended: bool, done: bool)

  const FRESH := State(0, false, false, false)

  /** The state after an event, or `None` when the event is refused. */
  function Next(s: State, event: Event): Option<State> {
    if s.done || event.sequence != s.last + 1 then None
    else
      match event.kind
      case MessageStart => if s.started then None else Some(s.(last := event.sequence, started := true))
      case MessageEnd => if !s.started || s.ended then None else Some(s.(last := event.sequence, ended := true))
      case Done => if !s.started || !s.ended then None else Some(s.(last := event.sequence, done := true))
      case Error => if !s.started then None else Some(s.(last := event.sequence))
      case _ => if !s.started || s.ended then None else Some(s.(last := event.sequence))
  }

  class StreamSequenceValidator {
    var lastSequence: int
    var started: bool
    var ended: bool
    var done: bool

    constructor ()
      ensures Now() == FRESH
    {
      lastSequence, started, ended, done := 0, false, false, false;
    }

    function Now(): State
      reads this
    {
      State(lastSequence, started, ended, done)
    }

    /** Takes an event or refuses it; a refused event changes nothing. `None` is an event of no known form. */
    method Accept(event: Option<Event>) returns (r: Result<Event, string>)
      modifies this
      ensures r.Ok? <==> event.Some? && Next(old(Now()), event.value).Some?
      ensures r.Ok? ==> r.value == event.value && Now() == Next(old(Now()), event.value).value
      ensures r.Err? ==> Now() == old(Now())
    {
      if event.None? {
        return Err("invalid event");
      }
      var validated := event.value;
      if done {
        return Err("events cannot be emitted after done");
      }
      if validated.sequence != lastSequence + 1 {
        return Err("stream sequence must be contiguous and monotonic");
      }
      if !started && validated.kind != MessageStart {
        return Err("message_start must be the first stream event");
      }
      if validated.kind == MessageStart {
        if started {
          return Err("message_start may only be emitted once");
        }
        started := true;
      }
      if validated.kind == MessageEnd {
        if ended {
          return Err("message_end may only be emitted once");
        }
        ended := true;
      }
      if validated.kind == Done {
        if !ended {
          return Err("done requires message_end");
        }
        done := true;
      }
      if ended && Content(validated.kind) {
        return Err("content events cannot follow message_end");
      }
      lastSequence := validated.sequence;
      return Ok(validated);
    }
  }

  /** The state after a run of events, all of them accepted. */
  function Run(events: seq<Event>): Option<State> {
    if events == [] then Some(FRESH)
    else
      match Run(events[..|events| - 1])
      case None => None
      case Some(s) => Next(s, events[|events| - 1])
  }

  // ------------------------------------------------------------------- the language

  function Kinds(events: seq<Event>): (kinds: seq<Kind>)
    ensures |kinds| == |events| && forall i | 0 <= i < |events| :: kinds[i] == events[i].kind
  {
    seq(|events|, i requires 0 <= i < |events| => events[i].kind)
  }

  predicate AllBody(kinds: seq<Kind>) {
    forall k | k in kinds :: Content(k) || k.Error?
  }

  predicate AllErrors(kinds: seq<Kind>) {
    forall k | k in kinds :: k.Error?
  }

  function Sentence(body: seq<Kind>, errors: seq<Kind>): seq<Kind> {
    [MessageStart] + body + [MessageEnd] + errors + [Done]
  }

  /** A beginning of: one start, content and errors, one end, errors, done. */
  ghost predicate InOrder(kinds: seq<Kind>) {
    exists body, errors :: AllBody(body) && AllErrors(errors) && kinds <= Sentence(body, errors)
  }

  predicate Counted(events: seq<Event>) {
    forall i | 0 <= i < |events| :: events[i].sequence == i + 1
  }

  function Read(s: State, body: seq<Kind>, errors: seq<Kind>): seq<Kind> {
    if s.done then Sentence(body, errors)
    else if s.ended then [MessageStart] + body + [MessageEnd] + errors
    else if s.started then [MessageStart] + body
    else []
  }

  /** What has been read in each state of the validator. */
  ghost predicate ReadSoFar(kinds: seq<Kind>, s: State, body: seq<Kind>, errors: seq<Kind>) {
    && s.last == |kinds| && AllBody(body) && AllErrors(errors)
    && kinds == Read(s, body, errors)
    && (s.done ==> s.ended) && (s.ended ==> s.started) && (!s.ended ==> errors == []) && (!s.started ==> body == [])
  }

  lemma {:induction false} AcceptedIsRead(events: seq<Event>) returns (body: seq<Kind>, errors: seq<Kind>)
    requires Run(events).Some?
    ensures Counted(events) && ReadSoFar(Kinds(events), Run(events).value, body, errors)
  {
    if events == [] {
      body, errors := [], [];
    } else {
      var front, last := events[..|events| - 1], events[|events| - 1];
      body, errors := AcceptedIsRead(front);
      assert Kinds(events) == Kinds(front) + [last.kind];
      var s := Run(front).value;
      ReadOn(s, Run(events).value, last, body, errors);
      if s.ended && last.kind.Error? {
        errors := errors + [last.kind];
      } else if s.started && !s.ended && !last.kind.MessageEnd? {
        body := body + [last.kind];
      }
    }
  }

  lemma ReadOn(s: State, t: State, last: Event, body: seq<Kind>, errors: seq<Kind>)
    requires Next(s, last) == Some(t) && (!s.ended ==> errors == []) && (!s.started ==> body == [])
    requires (s.done ==> s.ended) && (s.ended ==> s.started)
    ensures s.ended && last.kind.Error? ==> Read(t, body, errors + [last.kind]) == Read(s, body, errors) + [last.kind]
    ensures s.started && !s.ended && !last.kind.MessageEnd? ==>
            Read(t, body + [last.kind], errors) == Read(s, body, errors) + [last.kind]
    ensures (s.ended && !last.kind.Error?) || !s.started || (!s.ended && last.kind.MessageEnd?) ==>
              Read(t, body, errors) == Read(s, body, errors) + [last.kind]
  {
    assert [MessageStart] + (body + [last.kind]) == [MessageStart] + body + [last.kind];
    var open := [MessageStart] + body + [MessageEnd];
    assert open + [] == open && open + (errors + [last.kind]) == open + errors + [last.kind];
    assert [MessageStart] + [] == [] + [MessageStart];
  }

  /** What is read in a state can be continued to a whole sentence. */
  lemma ReadIsInOrder(kinds: seq<Kind>, s: State, body: seq<Kind>, errors: seq<Kind>)
    requires ReadSoFar(kinds, s, body, errors)
    ensures InOrder(kinds)
  {
    assert kinds <= Sentence(body, errors);
  }

  /** Every beginning of a sentence, numbered from 1, is accepted. */
  lemma {:induction false} SentencesAreAccepted(events: seq<Event>, body: seq<Kind>, errors: seq<Kind>)
    requires Counted(events) && AllBody(body) && AllErrors(errors) && Kinds(events) <= Sentence(body, errors)
    ensures var n := |events|;
            Run(events) == Some(State(n, n > 0, n > 1 + |body|, n == |Sentence(body, errors)|))
  {
    if events != [] {
      var n := |events|;
      var front, last := events[..n - 1], events[n - 1];
      assert Kinds(front) == Kinds(events)[..n - 1];
      SentencesAreAccepted(front, body, errors);
      var kind := Sentence(body, errors)[n - 1];
      assert last.kind == kind;
      assert n > 1 && n <= 1 + |body| ==> kind == body[n - 2] && kind in body;
      assert 2 + |body| < n < |Sentence(body, errors)| ==> kind == errors[n - 3 - |body|] && kind in errors;
    }
  }

  /** A run of events is accepted exactly when it is numbered 1, 2, 3, ... and its kinds begin a sentence. */
  lemma AcceptedExactlyWhenInOrder(events: seq<Event>)
    ensures Run(events).Some? <==> Counted(events) && InOrder(Kinds(events))
  {
    if Run(events).Some? {
      var body, errors := AcceptedIsRead(events);
      ReadIsInOrder(Kinds(events), Run(events).value, body, errors);
    }
    if Counted(events) && InOrder(Kinds(events)) {
      var body, errors :| AllBody(body) && AllErrors(errors) && Kinds(events) <= Sentence(body, errors);
      SentencesAreAccepted(events, body, errors);
    }
  }
}
