/** What becomes of a command (apps/api/app/agents/master.py, `handle`): refused, asked back about, run as planned,
    or run as confirmed; and that asking, confirming and sending again are together one uninterrupted run. */
module Commands {
  import opened Values
  import opened Contracts
  import opened Gateway
  import opened Master
  import opened Resumption
  import opened Confirmation

  /** The command carries a confirmation that its own requester accepted, of a tool that there still is. */
  ghost predicate CarriesAccepted<W>(env: Env<W>, ctx: Context, st: State<W>) {
    && ctx.approvalId.Some? && ctx.approvalId.value in st.approvals
    && var row := st.approvals[ctx.approvalId.value];
      row.status == Approved && row.principal == ctx.principal && row.tool in env.tools
  }

  /** The steps that a command runs if it gets that far: those kept with its confirmation, or those planned. */
  ghost function StepsOf<W>(env: Env<W>, ctx: Context, st: State<W>, planned: Planned): seq<PlanStep> {
    if CarriesAccepted(env, ctx, st) then Resume(st.approvals[ctx.approvalId.value]).0 else planned.steps
  }

  /** A planned question is the reply, and nothing is run. */
  lemma PlannedQuestionIsAsked<W>(env: Env<W>, ctx: Context, st: State<W>, planned: Planned)
    requires !CarriesAccepted(env, ctx, st) && planned.clarification.Some?
    ensures Handled(env, true, ctx, st, planned) == (st, NeedsInput(planned.clarification.value))
  {
  }

  /** Who may not command is refused; a command is asked back about exactly when its plan has a question, and no
      confirmation replaces the plan, or when its steps change several records; in all these cases nothing is
      touched. */
  lemma AskedBackExactlyWhen<W>(env: Env<W>, mayCommand: bool, ctx: Context, st: State<W>, planned: Planned)
    ensures var (after, reply) := Handled(env, mayCommand, ctx, st, planned);
            var question := !CarriesAccepted(env, ctx, st) && planned.clarification.Some?;
            && (reply.NotAllowed? <==> !mayCommand)
            && (reply.NeedsInput? <==>
                  mayCommand && (question || RecordChanges(env, StepsOf(env, ctx, st, planned)) > 1))
            && (reply.NeedsInput? ==>
                  reply.clarification == if question then planned.clarification.value else ONE_CHANGE_PER_CONFIRMATION)
            && (!reply.Ran? ==> after == st)
  {
  }

  /** A confirmed command does not depend on how its words are planned this time. */
  lemma ConfirmedIgnoresThePlan<W>(env: Env<W>, mayCommand: bool, ctx: Context, st: State<W>, planned: Planned,
      other: Planned)
    requires CarriesAccepted(env, ctx, st)
    ensures Handled(env, mayCommand, ctx, st, planned) == Handled(env, mayCommand, ctx, st, other)
  {
  }

  /** The results of a command that ran are of its steps. */
  lemma ResultsAreOfTheSteps<W>(env: Env<W>, ctx: Context, st: State<W>, planned: Planned)
    requires Handled(env, true, ctx, st, planned).1.Ran?
    ensures forall r | r in Handled(env, true, ctx, st, planned).1.results ::
              r.stepId in IdSet(StepsOf(env, ctx, st, planned))
  {
    var earlier := if CarriesAccepted(env, ctx, st) then Resume(st.approvals[ctx.approvalId.value]).1 else map[];
    ResultsGrow(env, ctx, StepsOf(env, ctx, st, planned), Start(st, earlier));
  }

  // ------------------------------------------------------------------- two commands and a decision

  /** A command with a plan of its own that passes its checks and has at most one record change. */
  ghost predicate PlannedAlone<W>(env: Env<W>, ctx: Context, st: State<W>, planned: Planned) {
    && Registered(env) && !CarriesAccepted(env, ctx, st) && planned.clarification.None?
    && ValidPlan(planned.steps) && RecordChanges(env, planned.steps) <= 1
  }

  function ResultsOf(reply: Reply): seq<StepResult> {
    if reply.Ran? then reply.results else []
  }

  /** The command is handled, the confirmation it asks for is accepted, and it is sent again. */
  datatype Exchange<!W> = Exchange(env: Env<W>, ctx: Context, st: State<W>, planned: Planned, decidedAt: int,
                                   resent: Context, again: Planned)
  {
    function Asking(): (State<W>, Reply) {
      Handled(env, true, ctx, st, planned)
    }

    /** The confirmation that is asked for. */
    function AskedCall(): Option<Asked> {
      AskedFor(ResultsOf(Asking().1))
    }

    ghost predicate Asks() {
      PlannedAlone(env, ctx, st, planned) && Asking().1.Ran? && Asking().1.status.NeedsApproval?
    }

    /** What the requester's acceptance makes of the state. */
    function Accepted(): State<W> {
      if AskedCall().None? then st
      else Decide(Asking().0, ctx.principal, AskedCall().value.approvalId, true, decidedAt).0
    }

    function Resent(): (State<W>, Reply) {
      Handled(env, true, resent, Accepted(), again)
    }

    ghost predicate InTime() {
      && decidedAt <= ctx.now + env.ttl && resent.now < ctx.now + env.ttl
      && AskedCall().Some? && resent.principal == ctx.principal
      && resent.approvalId == Some(AskedCall().value.approvalId)
    }

    /** The story of the exchange, beside a run under a confirmation granted beforehand. */
    ghost function Told(granted: Context, stGranted: State<W>): Story<W> {
      Story(env, planned.steps, ctx, st, granted, stGranted, resent, Accepted())
    }
  }

  lemma AskingIsTheStop<W>(x: Exchange<W>, s: Story<W>)
    requires x.Asks() && s == x.Told(s.granted, s.stGranted)
    ensures s.Asked() && x.AskedCall() == AskedFor(s.First().results) && ResultsOf(x.Asking().1) == s.First().results
    ensures x.Asking().0 == WithKept(s.ctx, s.First().st, s.steps, s.First().results)
  {
    AsksExactlyWhenStopped(s.env, s.ctx, s.steps, Start(s.st, map[]));
    var k := StopShape(s.env, s.ctx, s.steps, s.st);
  }

  /** A usable confirmation with a kept plan: the reply is of the resumed run. */
  lemma ResentRuns<W>(x: Exchange<W>, s: Story<W>)
    requires s == x.Told(s.granted, s.stGranted) && s.Asked() && Usable(s.env, s.resent, s.stResent)
    requires var row := s.stResent.approvals[s.resent.approvalId.value];
             row.resume == Some(Keep(s.steps, s.First().results).value.1)
    requires !s.Second().stopped
    ensures x.Resent().1.Ran? && !x.Resent().1.status.NeedsApproval?
    ensures x.Resent().1.results == s.Second().results && x.Resent().0 == s.Second().st
  {
    var row := s.stResent.approvals[s.resent.approvalId.value];
    KeepKeepsThePlan(s.steps, s.First().results);
    ResumedPlanHasNoMoreChanges(s.env, row);
    AsksExactlyWhenStopped(s.env, s.resent, Resume(row).0, Start(s.stResent, Resume(row).1));
  }

  /** The replies to the two commands together are the uninterrupted run. */
  ghost predicate OneRun<W>(x: Exchange<W>, whole: Progress<W>) {
    var (after, reply) := x.Resent();
    var asking := ResultsOf(x.Asking().1);
    && reply.Ran? && !reply.status.NeedsApproval? && asking != []
    && whole.results == asking[..|asking| - 1] + reply.results
    && after.world == whole.st.world && after.calls == whole.st.calls
  }

  /** The granted confirmation is of the call that is asked for, which the checks leave as it is. */
  ghost predicate Grants<W>(x: Exchange<W>, granted: Context, stGranted: State<W>) {
    && granted.principal == x.ctx.principal && stGranted.world == x.st.world && stGranted.calls == x.st.calls
    && x.AskedCall().Some?
    && var c := x.AskedCall().value;
      && Confirmed(granted, stGranted, c.tool, c.arguments) && c.tool in x.env.tools
      && Check(x.env, x.ctx.principal, x.env.tools[c.tool], c.arguments) == Ok(c.arguments)
  }

  /** Handled, confirmed in time and sent again, a command does what the uninterrupted run under a granted confirmation
      does, and asks no more: the results of the two replies, without the one that asks, are its results, in order, and
      the records and handler calls are its. */
  lemma ConfirmedCommandIsOneRun<W>(x: Exchange<W>, granted: Context, stGranted: State<W>)
    requires x.Asks() && x.InTime() && Grants(x, granted, stGranted)
    requires var first := Run(x.env, x.ctx, x.planned.steps, Start(x.st, map[]));
             Keep(x.planned.steps, first.results).Some?
             && NoneBlocked(Remaining(x.planned.steps, first.results)[1..], first.failed)
    ensures OneRun(x, Run(x.env, granted, x.planned.steps, Start(stGranted, map[])))
  {
    var s := x.Told(granted, stGranted);
    AskingIsTheStop(x, s);
    KeptAndConfirmed(s, x.decidedAt);
    ConfirmedResendFinishes(s, x.decidedAt, s.First(), s.Whole(), s.Second());
    ResentRuns(x, s);
  }
}
