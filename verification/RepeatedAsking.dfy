/** A command that is asked about again although its confirmation was given in time: validating the confirmed arguments
    once more gives other arguments. */
module RepeatedAsking {
  import opened Values
  import opened Contracts
  import opened Spec
  import opened Bindings
  import opened Gateway
  import opened Master
  import opened Resumption
  import opened Confirmation

  /** A record change with one optional parameter that has a default. */
  function Change(name: string): Tool<int> {
    Tool(name, [ParameterSpec("limit", Integer, false, [], None, None, 500, TextItems, Int(10))], HighRisk, _ => true,
        None,
         (w, p, a) => (w, Done(Null, "changed")))
  }

  function Tools(name: string): Env<int> {
    Env(map[name := Change(name)], 900, PlainPython())
  }

  /** The parameter is given, as an explicit null. */
  function Plan(name: string): seq<PlanStep> {
    [PlanStep("s1", name, map["limit" := Null], "", [], [], "data")]
  }

  const ASKING := Context("ada", None, 0)
  const RESENDING := Context("ada", Some(0), 0)
  const UNTOUCHED: State<int> := State(0, map[], 0, [], [])

  ghost function FirstRun(name: string): Progress<int> {
    Run(Tools(name), ASKING, Plan(name), Start(UNTOUCHED, map[]))
  }

  /** The command stops, its confirmation is accepted at once, and the command is sent again. */
  ghost function TheStory(name: string): Story<int> {
    var first := FirstRun(name);
    Story(Tools(name), Plan(name), ASKING, UNTOUCHED, ASKING, UNTOUCHED, RESENDING,
          Decide(WithKept(ASKING, first.st, Plan(name), first.results), "ada", 0, true, 0).0)
  }

  lemma ChecksDiffer(name: string)
    ensures Check(Tools(name), "ada", Change(name), map["limit" := Null]) == Ok(map[])
    ensures Check(Tools(name), "ada", Change(name), map[]) == Ok(map["limit" := Int(10)])
  {
    NullComesBackAsDefault(PlainPython());
  }

  lemma Asks(name: string)
    ensures var invocation := Invoke(Tools(name), ASKING, UNTOUCHED, name, map["limit" := Null]).1;
            invocation.status.ApprovalRequired? && invocation.approval.Some?
            && invocation.approval.value.approvalId == 0 && invocation.approval.value.tool == name
                && invocation.approval.value.arguments == map[]
  {
    ChecksDiffer(name);
    RecordChange(Tools(name), ASKING, UNTOUCHED, name, map["limit" := Null]);
  }

  lemma OneStep<W>(env: Env<W>, ctx: Context, steps: seq<PlanStep>, st: State<W>)
    requires |steps| == 1 && steps[0].dependsOn == [] && steps[0].bindings == []
    ensures var p, invocation := Run(env, ctx, steps, Start(st, map[])),
            Invoke(env, ctx, st, steps[0].tool, steps[0].arguments).1;
            p.results == [ResultOf(steps[0], invocation)] && p.stopped == invocation.status.ApprovalRequired?
  {
    assert steps[1..] == [];
    assert ResolveAll(steps[0].arguments, steps[0].bindings, map[]) == Ok(steps[0].arguments);
  }

  lemma Stops(name: string)
    ensures var first := FirstRun(name);
            && first.stopped && |first.results| == 1 && first.results[0].status.ApprovalRequired?
                && first.results[0].stepId == "s1"
            && first.results[0].approval.Some? && first.results[0].approval.value.approvalId == 0
            && first.results[0].approval.value.tool == name && first.results[0].approval.value.arguments == map[]
  {
    Asks(name);
    OneStep(Tools(name), ASKING, Plan(name), UNTOUCHED);
  }

  lemma IsAsked(name: string)
    ensures TheStory(name).Asked() && AskedFor(FirstRun(name).results) == FirstRun(name).results[0].approval
  {
    Stops(name);
    assert Plan(name)[1..] == [] && RecordChanges(Tools(name), Plan(name)) <= 1;
    assert StepIds(Plan(name))[0] == "s1";
  }

  /** The re-sent command asks again. */
  lemma ConfirmedCommandAsksAgain(name: string, planned: Planned)
    ensures var s := TheStory(name);
            && s.Asked() && ConfirmedInTime(s, 0)
            && var reply := Handled(s.env, true, s.resent, s.stResent, planned).1;
              reply.Ran? && reply.status.NeedsApproval?
  {
    var s := TheStory(name);
    IsAsked(name);
    Stops(name);
    ResendAsksExactlyWhen(s, 0, planned);
    KeptAndConfirmed(s, 0);
    ChecksDiffer(name);
  }
}
