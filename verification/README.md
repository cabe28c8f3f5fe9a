# Verified model of the institutional assistant's core

This project models the parts of the assistant whose correctness depends on more than one function, and proves what they
promise. It models:

- **Plans, confirmations and resumption.** A plan of tool steps runs in order; a step waits for earlier steps and reads
  their outputs through `$step.path` references; a step that changes records stops the run until the requester confirms
  it; the rest of the plan is kept with the confirmation and resumed by the re-sent command (`Bindings`, `Contracts`,
  `Spec`, `Gateway`, `Master`, `Verification`, `Resumption`, `ScriptedTools`, `AnyTools`, `LostDependency`,
  `BindingOrder`, `Confirmation`, `RepeatedAsking`, `Accounting`). What a call, a step, a reference, an argument and a
  whole command come to is told in terms of their own in `Permission`, `Coercion`, `References`, `Steps` and `Commands`.
- **The approval row as a protocol.** Any number of calls and decisions interleave on one row; each call is four separate
  steps (read, atomic claim, handler, settling write) and each decision two (read, unconditional write) (`Approvals`);
  what a handler's start rests on is told from the actions alone (`Acceptance`).
- **Planning.** The deterministic planner over arbitrary outcomes of its text tests, the model planner over arbitrary
  replies, and when a plan of either, run from the start or resumed once or twice, may read from a step without output
  (`Planner`, `CommandArguments`, `ModelPlanner`, `PlanReadiness`, `PlannedRun`, `ResumedReadiness`, `AskingAgain`).
- **The streamed search marker** (`SearchMarker`, `Streaming`, `Speaking`) and **the event order of a stream** (`Events`).
- **The PDF writer**, byte for byte, next to an independent reader that starts at the trailer (`Decimal`, `Wrap`,
  `Lines`, `PdfText`, `PdfLayout`, `PdfFile`, `PdfDocument`), and **the chunker** (`Text`, `Chunking`, `Cleaning`,
  `Breaks`).
- **The reshaping of wide marks sheets** (`LabelSplit`, `ExamNaming`, `ColumnLetters`, `WideMarks`).
- **Ranking arithmetic and its metrics** over exact reals (`Retrieval`, `Search`, `Evals`).

Code that updates state in the repository is a class or a method with a loop here, proved equal to a function on values
or proved to have the property outright; the theorems are about those functions. `dafny verify dfyconfig.toml` checks the
whole project.

## Findings

Where the code does not keep a promise on every input, the model keeps the code, shows an input, and proves exactly when
the promise holds.

- **A confirmation can be used twice when two decisions race.** `decide_approval` in the gateway reads the row and writes
  it later, and the store's UPDATE carries no condition on the status. Two acceptances that both read `pending` let the
  second write revive a row that was already claimed. Single use holds in every run exactly when at most one decision is
  between its read and its write (`Approvals.SafeExactlyWhenDecisionsAreSerial`); that handlers only run what the
  requester accepted in time holds in every interleaving (`Acceptance.HandlersStartAccepted`).
- **Resuming can do more than the uninterrupted plan.** `_resume` drops dependencies on every step before the stop, also
  on those that failed, although the comment at `apps/api/app/agents/master.py:116` says their outputs were kept
  (`LostDependency.ResumedRunDoesMore`). In one story the meaning is kept exactly when no step that lost such a
  dependency runs (`Resumption.ResumeMeansTheSame`); whatever the tools do after the stop, exactly when no later step
  that waits for a failed one can be reached (`AnyTools.KeepsMeaningWhateverToolsDo`); that no later step waits for a
  failed one is always enough, and exact when the steps before it need no outputs (`AnyTools.PlainConditionIsExact`).
- **A resumed run may read from a failed step**, for the same reason: a plan that waits for all it reads meets no unknown
  step in its first run and one in its second (`LostDependency.ResumedRunReadsWhatFailed`). A resumed run meets one
  exactly when a step runs that reads from a step that failed before the stop
  (`ResumedReadiness.ResumedMeetsUnknownExactlyWhen`); at the stop it is enough that no later step reads from a failed
  one (`ResumedReadiness.ReadyWhenNoneReadsFailed`), and for plain references that is exact over all behaviours of tools
  (`ResumedReadiness.ResumedReadyExactlyWhen`).
- **Asking again forgets the outputs.** A re-sent command whose confirmation is too old, or is not of the checked
  arguments, asks again, and `_keep_for_resume` then keeps the outputs of that run only
  (`apps/api/app/agents/master.py:132`), not those it started from (`AskingAgain.AskingAgainForgets`). Confirmed again, a
  plan whose first resumption would have read everything reads from a step without output
  (`AskingAgain.ForgottenOutputIsMissed`), exactly when a step runs that reads from one before the stop
  (`AskingAgain.AskedAgainMeetsUnknownExactlyWhen`).
- **A confirmed command can ask again.** It does exactly when the tool's validation changes its own output
  (`Confirmation.ResendAsksExactlyWhen`), for example for a record change with a defaulted parameter that is given as an
  explicit null (`RepeatedAsking.ConfirmedCommandAsksAgain`). The one registered record change
  (`apps/api/app/platform_tools/actions.py:73`) has no such parameter.
- **Validation is not idempotent** for an explicit null with a default (`Spec.NullComesBackAsDefault`), an all-whitespace
  text (`Spec.BlankIsDroppedNext`), and an array text cut right after whitespace (`Spec.CutItemIsShortenedNext`); on all
  other input it is.
- **A marker of more than 321 characters** after leading whitespace is recognised or not depending on how the reply was
  cut into deltas; every shorter one is recognised however it is cut. Both kinds exist
  (`Streaming.MarkersOfEveryLength`).
- **A carriage return in a report line** does not survive a PDF reader, which reads it as a line feed; every other
  character of the file's encoding does.
- **The number of a full page falls off the paper.** With the 58 lines that a page has unless told otherwise, its number is
  drawn 22 points below the bottom edge. Lines are on the paper up to 58 of them, the number up to 56
  (`PdfLayout.OnPaperExactlyWhen`, `PdfLayout.NumbersOnPaperExactlyWhen`).
- **A page of exactly three lines** (the header's size) is an error, and a smaller one gives a file without pages.
- **A model's plan may read from a step that has not run**: the checks on plans look at dependencies, not at bindings, and
  a reply that does so gets through (`PlannedRun.ModelPlansMayReadTooEarly`). Over all behaviours of tools with given
  schemas, a plan is free of this exactly when no step of it is exposed, a condition on the plan, the schemas and the
  outputs it starts from (`PlanReadiness.ReadyExactlyWhen`); for plans with plain references whose awaited steps need no
  outputs, exactly when every step waits, directly or through others, for what it reads, or finds it among the earlier
  outputs (`PlanReadiness.SimplePlansReadyExactlyWhen`).

## Model

| member | source | states |
|---|---|---|
| Approvals.HandlersAreAuthorised | apps/api/app/gateway/gateway.py:185-218 | In every interleaving of calls and decisions, however many race, each claim is of the recorded principal, tool and arguments, before expiry, and of a row that a decision by that principal set to approved; the row's recorded call never changes. |
| Acceptance.HandlersStartAccepted | apps/api/app/gateway/gateway.py:129-218 | In every interleaving, told from the actions alone: whenever a handler starts, it is for the recorded call before the row expires, and an earlier acceptance by the requester was read before the row expired and written since. |
| Acceptance.RefusedNeverRuns | apps/api/app/gateway/gateway.py:129-218 | A row that its requester only ever refuses starts no handler, whatever else happens. |
| Acceptance.DecidedThenCalled | apps/api/app/gateway/gateway.py:129-218 | One decision, then a call: the handler starts exactly when the decision was an acceptance. |
| Acceptance.RefusalIsFinal | apps/api/app/gateway/gateway.py:129-142 | After the requester refused a pending row, no later call that carries it runs a record change, whatever calls and decisions come between. |
| Acceptance.UsableExactlyWhenAccepted | apps/api/app/gateway/gateway.py:98-142 | After a decision by the requester, the recorded call can run exactly when the decision was an acceptance in time. |
| Acceptance.OnlyTheRequesterDecides | apps/api/app/gateway/gateway.py:129-136 | A decision succeeds exactly when it is the requester's, of a pending row, and no late acceptance; a failing one changes nothing but to expire the row accepted late. |
| Approvals.SafeExactlyWhenDecisionsAreSerial | apps/api/app/institution_data/store.py:1261-1284 | For any bound on the decisions in flight at once: all runs keep one outstanding claim, at most one success and final statuses, if and only if the bound is at most one. |
| Approvals.RaceBreaksSingleUse | apps/api/app/gateway/gateway.py:129-142 | Two acceptances that read the pending row before either writes lead to two handlers running under one confirmation. |
| Approvals.InvAlways | apps/api/app/gateway/gateway.py:113-117 | With at most one decision in flight, any run keeps single use, and consumed, rejected and expired rows stay so; only an executing row is settled. |
| Approvals.StepKeepsInv | apps/api/app/institution_data/store.py:1261-1274 | Every single protocol step keeps the invariant and leaves a final status alone. |
| Approvals.DecideIsTwoSteps | apps/api/app/gateway/gateway.py:129-142 | A decision taken alone is the protocol's read followed by its write. |
| Approvals.InvokeIsFourSteps | apps/api/app/gateway/gateway.py:185-218 | A record change through the gateway leaves its row exactly as the protocol's read, claim, handler and settling write do. |
| Gateway.ToolGateway.InvokeTool | apps/api/app/gateway/gateway.py:145-232 | The whole new state and the invocation of one call: unknown tool, refused check, handler run, claim, or a new confirmation asked for. |
| Gateway.ToolGateway.ClaimApproval | apps/api/app/institution_data/store.py:1261-1274 | Claims exactly an approved, unexpired row of the principal, and changes nothing else. |
| Gateway.ToolGateway.RequestApproval | apps/api/app/gateway/gateway.py:119-127 | A new pending row with the caller's principal and the checked arguments. |
| Gateway.ToolGateway.DecideApproval | apps/api/app/gateway/gateway.py:129-142 | A decision and each of its errors; a late acceptance expires the row. |
| Gateway.ToolGateway.SetApprovalResume | apps/api/app/institution_data/store.py:1251-1259 | The plan is kept only with a pending row of the same principal. |
| Gateway.ToolGateway.RunHandler | apps/api/app/gateway/gateway.py:198-218 | The handler's effect; success consumes a claimed row, failure returns it. |
| Gateway.RecordChange | apps/api/app/gateway/gateway.py:185-197 | A record change runs exactly when its checked arguments are the confirmed ones, asks when they are not, and then touches neither the records nor another row. |
| Gateway.OtherCall | apps/api/app/gateway/gateway.py:145-184 | A call that changes no record never asks, and its outcome does not depend on the confirmation carried. |
| Gateway.OneAuditEvent | apps/api/app/gateway/gateway.py:82-95 | Every call leaves exactly one more audit event, of its principal and tool, and makes at most one handler call, of the same principal and tool. |
| Permission.CheckedExactlyWhen | apps/api/app/gateway/gateway.py:150-184 | Arguments pass the checks exactly when they validate, the principal is permitted, and the validator accepts them; what it makes of them is what is called with. |
| Permission.RefusedCalls | apps/api/app/gateway/gateway.py:147-184 | Each way of refusing a call, its status, and that only the audit trail changes. |
| Permission.CallsArePermitted | apps/api/app/gateway/gateway.py:145-232 | A call either asks for a confirmation of an allowed call, makes one allowed handler call, under a confirmation if it changes records, or does nothing. |
| Permission.PermittedCallRuns | apps/api/app/gateway/gateway.py:198-232 | A permitted call that changes no record is the handler's, with the checked arguments; its status, data, summary and reason are told. |
| Permission.AuditTellsTheEnd | apps/api/app/gateway/gateway.py:82-95 | The one audit event says how the call ended. |
| Permission.RunCallsArePermitted | apps/api/app/agents/master.py:166-192 | Every handler call of a run of a plan is validated, permitted to its principal and, if it changes records, confirmed before. |
| Permission.CommandsArePermitted | apps/api/app/agents/master.py:247-311 | The same for a whole command; who may not command changes nothing. |
| Spec.ValidateArguments | apps/api/app/gateway/spec.py:139-153 | Unknown names, missing and bad values are errors, and the result holds exactly the validated parameters. |
| Spec.CollectMeaning | apps/api/app/gateway/spec.py:139-153 | The result of validation, parameter by parameter: accepted exactly when each parameter is, each name with its own coerced value. |
| Spec.CoerceArray | apps/api/app/gateway/spec.py:202-221 | The item loop agrees with coercing every item, errors included. |
| Spec.CoerceObject | apps/api/app/gateway/spec.py:222-234 | The entry loop accepts exactly flat objects, unchanged. |
| Spec.CoerceAgain | apps/api/app/gateway/spec.py:156-235 | For every parameter type: a validated value is kept by a second validation if and only if the given value settles. |
| Spec.ValidationIsIdempotent | apps/api/app/gateway/spec.py:139-235 | Validating a validated call again succeeds unchanged if and only if every parameter settles, told from the values given. |
| Spec.PlainCallsSettle | apps/api/app/gateway/spec.py:139-235 | Without nulls, blank texts and long array texts, validation is idempotent. |
| Spec.NullComesBackAsDefault | apps/api/app/gateway/spec.py:139-153 | An explicit null is dropped once and becomes the default the next time. |
| Spec.BlankIsDroppedNext | apps/api/app/gateway/spec.py:139-165 | A blank text becomes an empty one, which the next validation drops. |
| Spec.CutItemIsShortenedNext | apps/api/app/gateway/spec.py:202-221 | A list item that is cut right after a space is shortened once more the next time. |
| Coercion.CoercionMeans | apps/api/app/gateway/spec.py:156-235 | A value is accepted as another exactly when that is what it means: for every type, the texts that stand for it, the bounds, the allowed values, the cuts and the items. |
| Coercion.ValidationMeans | apps/api/app/gateway/spec.py:139-153 | A call is accepted, with these arguments, exactly when it names no unknown parameter and each of them is what the given value, or the default, means. |
| Bindings.ResolveReference | apps/api/app/agents/bindings.py:21-46 | The segment loop computes the walk of a reference's path, with all of its errors. |
| Bindings.ResolveArguments | apps/api/app/agents/bindings.py:49-57 | Bindings are resolved in order over the arguments, and the first error stops. |
| Bindings.ReferencedSteps | apps/api/app/agents/bindings.py:60-68 | Exactly the steps that a step waits for or reads from. |
| Bindings.ReadsOnlyReferenced | apps/api/app/agents/bindings.py:21-68 | Resolving a step gives the same under any two sets of outputs that agree on its referenced steps. |
| Bindings.ReferenceNamesStep | apps/api/app/agents/bindings.py:9-10 | A reference written as dollar, step and path is read back as that step and path. |
| Bindings.UnknownStepIsMissing | apps/api/app/agents/bindings.py:21-46 | Resolving fails for an unknown step only if a binding names a step without an output. |
| References.ReadExactlyWhenWritten | apps/api/app/agents/bindings.py:9-18 | A text is read as a reference exactly when it writes it: dollar, step, and keys, indices or every item. |
| References.ResolvesExactlyWhen | apps/api/app/agents/bindings.py:21-46 | A reference reads a value exactly when its step has an output and its path leads from there to the value. |
| References.BindingPicks | apps/api/app/agents/bindings.py:49-57 | A list that is bound keeps its values other than null, in order; any other value stays. |
| BindingOrder.OrderOfBindings | apps/api/app/agents/bindings.py:49-57 | Bindings of different names resolve, and to the same arguments, in any order or in none. |
| BindingOrder.OrderDecidesTheError | apps/api/app/agents/bindings.py:49-57 | Two orders of the same bindings that report different errors. |
| BindingOrder.ReorderedPlanResumesAlike | apps/api/app/institution_data/store.py:42-43 | A kept plan whose bindings come back in another order does the same when it is resumed: same calls, records, failures and results but for the reason of an unresolved step. |
| Master.MasterAgent.Execute | apps/api/app/agents/master.py:166-192 | The loop gives the run of the plan: results, and the gateway's state after it. |
| Master.MasterAgent.KeepForResume | apps/api/app/agents/master.py:124-136 | What is kept: the plan, where it stopped, and the outputs its later steps use. |
| Master.MasterAgent.ResumePlan | apps/api/app/agents/master.py:94-122 | The rewritten rest of the kept plan, or the confirmed call alone. |
| Master.MasterAgent.HandleCommand | apps/api/app/agents/master.py:247-311 | One command: resume or plan, the question asked back, the one-change rule, execution, and keeping the plan when it stopped; what each comes to is told by the rows of Commands, Steps and Permission. |
| Commands.PlannedQuestionIsAsked | apps/api/app/agents/master.py:267-275 | Without an accepted confirmation, a planned question is the reply, and nothing is touched. |
| Commands.AskedBackExactlyWhen | apps/api/app/agents/master.py:247-275 | Refused exactly when the caller may not command; asked back exactly when the plan has a question that no confirmation replaces or the steps change several records; the question asked; nothing touched in these cases. |
| Commands.ConfirmedIgnoresThePlan | apps/api/app/agents/master.py:257-262 | A confirmed command does not depend on how its words are planned this time. |
| Commands.ResultsAreOfTheSteps | apps/api/app/agents/master.py:257-283 | The results are of the kept steps for a confirmed command and of the planned ones for any other. |
| Commands.ConfirmedCommandIsOneRun | apps/api/app/agents/master.py:247-311 | Handled, confirmed in time and sent again, a command gives in two replies the results, records and handler calls of one uninterrupted run, and asks no more. |
| Steps.BlockedStepIsSkipped | apps/api/app/agents/master.py:172-175 | A step that waits for a failed one leaves no trace but its name among the failed. |
| Steps.UnresolvedStepFails | apps/api/app/agents/master.py:176-181 | A step that cannot be resolved fails without a call. |
| Steps.StepTellsTheCall | apps/api/app/agents/master.py:176-191 | Any other step is called once, and its result tells the call; later steps can read it exactly when it succeeded, and only asking stops the run. |
| Steps.KeptExactlyWhen | apps/api/app/agents/master.py:131-132 | Kept are the outputs of exactly the successful steps that a later step reads from or waits for. |
| Steps.PlanIsKeptExactlyWhen | apps/api/app/institution_data/store.py:1251-1259 | A plan is kept with a row exactly when the row is pending and of the same principal; nothing else changes. |
| Steps.ResumesFrom | apps/api/app/agents/master.py:94-122 | The confirmed call comes first and is alone exactly when no kept step has both its name and its tool; otherwise the later steps follow unchanged, waiting only for steps still there. |
| Resumption.ResumeMeansTheSame | apps/api/app/agents/master.py:94-136 | Stopped once and resumed, a plan gives the same results in order, the same handler calls with the same arguments and the same records as one uninterrupted confirmed run, if and only if no step that waited for a failed step ran in the resumption. |
| Resumption.ResumeMeansTheSameExactlyWhen | apps/api/app/agents/master.py:114-119 | When the steps left that wait for a failed one wait for nothing still to run, that is the case if and only if there are no such steps, which can be checked at the stop. |
| Resumption.ResumeKeepsMeaning | apps/api/app/agents/master.py:94-136 | With no later step waiting for a failed one, resuming keeps the meaning, whatever the tools do. |
| Resumption.StopShape | apps/api/app/agents/master.py:124-136 | Where a run stops, what it asked for and what is kept with it; nothing was changed by the stop. |
| Resumption.StayInStep | apps/api/app/agents/master.py:166-192 | From the confirmed step on, the uninterrupted and the resumed run stay in step. |
| Resumption.SameBefore | apps/api/app/agents/master.py:166-192 | Steps that change no record run alike whatever confirmation is carried. |
| Resumption.KeptAgrees | apps/api/app/agents/master.py:131-132 | On every step still needed, the kept outputs are those the run had. |
| Resumption.ResumedPlan | apps/api/app/agents/master.py:106-122 | The resumed plan is the confirmed step and the rest, with the dependencies on earlier steps dropped. |
| Resumption.StopsAtAChange | apps/api/app/agents/master.py:184-187 | A run that stops does so at a registered record change, and nothing after it is touched. |
| LostDependency.ResumedRunDoesMore | apps/api/app/agents/master.py:116-119 | A plan that meets every other condition of the resumption theorem: its resumed run notifies although its lookup failed, and its uninterrupted run has no result for that step. |
| LostDependency.ResumedRunReadsWhatFailed | apps/api/app/agents/master.py:116-119 | A confirmed plan that waits for all it reads and whose first run meets no unknown step; its resumed run does. |
| AnyTools.KeepsMeaningWhateverToolsDo | apps/api/app/agents/master.py:114-119 | Over all stories with tools that check alike and that are the same up to the stop: resuming keeps the meaning in every one of them if and only if no later step that waits for a failed one can be reached, told from the resumed plan, the kept outputs and the checks. |
| AnyTools.PlainConditionIsExact | apps/api/app/agents/master.py:114-119 | That no later step waits for a failed one is enough, and necessary when every step up to the first such one needs no outputs and passes its checks. |
| AnyTools.LostMeansMore | apps/api/app/agents/master.py:114-119 | For a lost step that can be reached, tools under which the resumed plan means something else. |
| ScriptedTools.RunMirrors | apps/api/app/agents/master.py:166-192 | Tools that behave alike for as many calls as a run makes lead to the same run. |
| ScriptedTools.ReachableIsReached | apps/api/app/agents/master.py:166-192 | When a set of earlier steps can all succeed with given outputs, there are tools under which just those do, and the step is reached with exactly their outputs. |
| ScriptedTools.RunHasCast | apps/api/app/agents/master.py:166-192 | Conversely, in every run that has not stopped, the steps that succeeded wait only for such steps and could each succeed with the outputs of those before. |
| ScriptedTools.FewerOutputs | apps/api/app/agents/bindings.py:49-57 | With fewer outputs a step resolves to the same, or meets an unknown step. |
| Confirmation.ResendAsksExactlyWhen | apps/api/app/agents/master.py:257-286 | Asked, kept, confirmed in time and re-sent, a command runs, and asks for another confirmation if and only if the tool's validation changes its own output. |
| Confirmation.AsksAgainExactlyWhen | apps/api/app/agents/master.py:257-286 | The same for any usable confirmation whose resumed plan has one record change. |
| RepeatedAsking.ConfirmedCommandAsksAgain | apps/api/app/gateway/spec.py:139-153 | A command that is asked about, confirmed in time and asked about again, because an explicit null comes back as the default. |
| Confirmation.ConfirmedResendFinishes | apps/api/app/agents/master.py:94-122 | With a validation that fixes its output and no later step waiting for a failed one, the two runs are the uninterrupted run and nothing is asked again. |
| Confirmation.KeptAndConfirmed | apps/api/app/agents/master.py:124-136 | Asking, keeping, deciding and re-sending lead to a usable confirmation of exactly the asked call with the plan kept in it. |
| Confirmation.ResumedPlanHasNoMoreChanges | apps/api/app/agents/master.py:268-275 | What is resumed passes the one-change rule because the kept plan did. |
| Confirmation.OneChangeRule | apps/api/app/agents/master.py:268-275 | A plan with several record changes is asked back about and not even started. |
| Confirmation.AsksExactlyWhenStopped | apps/api/app/agents/verification.py:45-57 | The overall status asks for a confirmation if and only if the run stopped for one. |
| Confirmation.PlainToolsNeverDrift | apps/api/app/gateway/gateway.py:151-184 | A tool without a validator of its own fixes its output if and only if its parameters settle. |
| Accounting.ResultsInPlanOrder | apps/api/app/agents/master.py:166-192 | Results come in plan order, at most one for each step. |
| Accounting.NoResultExactlyWhen | apps/api/app/agents/master.py:166-192 | A step has no result if and only if a chain of earlier dependencies leads to a failed step or the run stopped before it. |
| Accounting.CompleteExactlyWhen | apps/api/app/agents/verification.py:45-57 | A non-empty plan is complete if and only if every step has a successful result. |
| Verification.Verify | apps/api/app/agents/verification.py:11-42 | The warnings of all steps, in plan order. |
| Verification.WarnsExactlyTheMissing | apps/api/app/agents/verification.py:11-42 | `step_not_executed` is warned for exactly the steps without a result. |
| Verification.StatusExactlyWhen | apps/api/app/agents/verification.py:45-57 | Each overall status, exactly when. |
| Verification.DataWarnsExactlyWhen | apps/api/app/agents/verification.py:27-41 | The warnings about an empty report, an email and missing document passages, each exactly when. |
| Verification.TruncationWarnsExactlyWhen | apps/api/app/agents/verification.py:22-26 | A list is warned of as truncated exactly when fewer students are listed than counted. |
| Verification.SourceWarnsExactlyWhen | apps/api/app/agents/verification.py:36-39 | A finding without a source is warned of exactly when there is one. |
| Planner.PlanCommand | apps/api/app/agents/planner.py:293-511 | For all outcomes of the text tests and all tool sets: uniquely named steps on available tools, waiting for and reading from earlier steps only, waiting for all they read from; the tools of the plan in order, what its first step is given, and exactly when a question comes back. |
| Planner.FirstRuleDecides | apps/api/app/agents/planner.py:317-470 | The first of the rules, in the order they are written, that applies to a command decides which tool it leads to. |
| CommandArguments.FirstRuleTells | apps/api/app/agents/planner.py:350-464 | That rule also decides the arguments of the call, by name, and what each says of the command. |
| Planner.Add | apps/api/app/agents/planner.py:304-307 | A step added to a sound plan keeps it sound and takes the next name. |
| Planner.FollowUp | apps/api/app/agents/planner.py:473-511 | Exactly the report, lookup, email and notification steps that were wanted and that the available tools allow, or the refusal of an email; the plan stays sound. |
| Planner.SoundPlansAreValid | apps/api/app/agents/contracts.py:63-72 | A sound plan of few steps passes the checks on plans, so building it never fails. |
| Planner.ReferenceRefers | apps/api/app/agents/planner.py:473-511 | Every reference the planner writes is read back as the step it was written for. |
| PlannedRun.SoundPlansNeverHitUnknown | apps/api/app/agents/master.py:172-181 | Whatever the tools do, no step of a sound plan run from the start runs without the outputs it reads. |
| PlannedRun.SoundPlansResumeReady | apps/api/app/agents/master.py:94-122 | Nor does one of its resumed rest, when at the stop no later step reads from a failed one. |
| PlannedRun.SoundPlansAreCovered | apps/api/app/agents/planner.py:304-307 | The deterministic planner's steps have different names and wait for all they read from. |
| PlannedRun.ModelPlansMayReadTooEarly | apps/api/app/agents/contracts.py:63-72 | A reply that gets through the parser, and every plan made of it runs its first step without the output it reads. |
| PlanReadiness.ReadyExactlyWhen | apps/api/app/agents/master.py:166-181 | For runs from the start and from any earlier outputs of other steps, over all behaviours of tools with given schemas: no run of a plan with different step names meets an unknown step if and only if no step reads from one it neither waits for nor has an earlier output of, while all it waits for can succeed. |
| PlanReadiness.UnexposedPlansNeverHitUnknown | apps/api/app/agents/master.py:166-181 | Without an exposed step no run from those outputs meets an unknown step, over records of any kind. |
| PlanReadiness.ExposedIsHit | apps/api/app/agents/bindings.py:21-46 | For an exposed step there are tools with those schemas under which the run gets to it and meets an unknown step. |
| PlanReadiness.CoveredPlansNeverHitUnknown | apps/api/app/agents/master.py:166-181 | A plan whose steps wait, directly or through others, for all they read from, or find it among the outputs the run starts from, never meets an unknown step, whatever its steps are called. |
| PlanReadiness.SimplePlansReadyExactlyWhen | apps/api/app/agents/contracts.py:63-72 | With plain references, and awaited steps that need no outputs to make an acceptable call, that condition is exact, for runs from the start and from earlier outputs. |
| ResumedReadiness.ResumedMeetsUnknownExactlyWhen | apps/api/app/agents/master.py:114-122 | Whatever the tools have become, the resumed run of a plan that waits for all it reads meets an unknown step if and only if a step runs that reads from one that failed before the stop, before another of its bindings fails. |
| ResumedReadiness.ResumedPlansNeverHitUnknown | apps/api/app/agents/master.py:114-122 | It meets none unless a step that lost a failed dependency has a result. |
| ResumedReadiness.ReadyWhenNoneReadsFailed | apps/api/app/agents/master.py:94-136 | When at the stop no later step reads from a failed one, the resumed run meets none, whatever the tools do. |
| ResumedReadiness.ReadyWhenNoneBlocked | apps/api/app/agents/master.py:94-136 | Nor when no later step waits for a failed one. |
| ResumedReadiness.ResumedReadyExactlyWhen | apps/api/app/agents/master.py:94-136 | For a rest with simple references and calls: no run of it meets an unknown step, over all behaviours of tools with given schemas, if and only if no later step reads from a failed one. |
| AskingAgain.AskingAgainForgets | apps/api/app/agents/master.py:124-136 | A re-sent command asks again if and only if its arguments pass their checks and no usable confirmation is of the result; then the rest of the plan is kept without any of the outputs it started from. |
| AskingAgain.ResumedAgain | apps/api/app/agents/master.py:94-122 | What the second confirmation resumes is the same rest of the plan, without outputs. |
| AskingAgain.AskedAgainMeetsUnknownExactlyWhen | apps/api/app/agents/master.py:131-132 | That run meets an unknown step if and only if a step runs that reads from any step before the stop, before another of its bindings fails. |
| AskingAgain.AskedAgainReadyExactlyWhen | apps/api/app/agents/master.py:131-132 | It never does when no later step reads from one before the stop; with simple references and calls, only then. |
| AskingAgain.ForgottenOutputIsMissed | apps/api/app/agents/master.py:124-136 | A plan whose lookup succeeds and whose resumption in time meets no unknown step; re-sent too late and confirmed again, it does. |
| ModelPlanner.Parse | apps/api/app/agents/planner.py:564-599 | Exactly which replies get through, and the plan each of them becomes: a question, or a valid plan of accepted steps over available tools. |
| ModelPlanner.ReadStep | apps/api/app/agents/planner.py:583-595 | Exactly which steps get through, and the step each becomes. |
| ModelPlanner.BindingARequiredParameterIsRejected | apps/api/app/agents/planner.py:587-592 | A step that binds a required parameter never gets through, because only what is known beforehand is validated. |
| ModelPlanner.AwaitedExactlyWhen | apps/api/app/agents/planner.py:593-595 | A model's step waits for exactly the texts listed under `depends_on`. |
| ModelPlanner.GivenExactlyWhen | apps/api/app/agents/planner.py:586-588 | It is given exactly the arguments of the reply that are not bound to a reference, as they are. |
| ModelPlanner.ConfidenceMeans | apps/api/app/agents/planner.py:624-635 | A confidence that is a number is kept up to its bounds; anything else gives the default. |
| ModelPlanner.AsksExactlyWhen | apps/api/app/agents/planner.py:575-577 | A reply asks something back exactly when its clarification is a text with a visible character. |
| ModelPlanner.PlanWithModel | apps/api/app/agents/planner.py:542-562 | The plan of a reply that gets through; otherwise the deterministic plan, an open task or the unknown plan, each exactly when. |
| Streaming.StreamingEqualsBatch | apps/api/app/conversation/streaming.py:42-122 | Every way of cutting a reply reports and speaks what the one-shot split does, if and only if the marker, if any, is at most 321 characters long. |
| Streaming.BatchIsTheSplit | apps/api/app/conversation/prompts.py:94-100 | The batch result compared with is that of `split_search_request`. |
| Streaming.StreamReply | apps/api/app/conversation/streaming.py:52-122 | The reading loop: what was heard, spoken and found, and the error of an early end. |
| Streaming.EarlyEndSpeaksAPrefix | apps/api/app/conversation/streaming.py:96-122 | What was spoken before an early end is a beginning of what arrived. |
| Speaking.SpokenExactlyWhenRuledOut | apps/api/app/conversation/streaming.py:79-100 | At every moment without a search: everything heard is spoken exactly when nothing was heard or a delta has come with which the opening is no beginning of a marker that fits. |
| Speaking.RuledOutHasNoMarker | apps/api/app/conversation/streaming.py:87-98 | Such an opening begins no marker that fits, whatever follows. |
| Speaking.PlainRepliesAreSpokenAtOnce | apps/api/app/conversation/streaming.py:86-100 | A reply that does not begin with the brackets is spoken as it arrives, from its second visible character on. |
| Speaking.SearchesAreFoundAtOnce | apps/api/app/conversation/streaming.py:90-93 | A marker that fits is found at the first delta with which all of it is there, with nothing spoken before. |
| Speaking.SplitTakesTheMarkerOff | apps/api/app/conversation/prompts.py:94-100 | Splitting takes a marker off the front of a reply, whatever its whitespace, and keeps the rest. |
| Speaking.WithoutMarkerNothingIsTaken | apps/api/app/conversation/prompts.py:94-100 | A reply without one stays whole, up to whitespace at its ends. |
| Streaming.LongMarkerIsMissed | apps/api/app/conversation/streaming.py:75-90 | A longer marker is spoken when a delta ends 321 characters in. |
| Streaming.MarkersOfEveryLength | apps/api/app/conversation/streaming.py:75-90 | A marker with any number of blanks after its brackets: every cut agrees if and only if there are at most 308. |
| SearchMarker.MarkerIsLocal | apps/api/app/conversation/prompts.py:20 | No beginning before a marker's end shows it, and nothing after its end changes it. |
| SearchMarker.FoundExactlyWhenMatched | apps/api/app/conversation/prompts.py:20 | A marker is found if and only if the pattern, written as brackets, word, colon and query with whitespace between, matches a beginning; every way of matching gives the query and the end that are found. |
| SearchMarker.QueryIsSuffix | apps/api/app/conversation/prompts.py:94-100 | Before its whitespace is collapsed, a query is 2 to 300 characters of the reply without a line break. |
| Events.StreamSequenceValidator.Accept | apps/api/app/domain/streaming.py:86-109 | Which event is accepted in which state, and that a rejected one changes nothing. |
| Events.AcceptedExactlyWhenInOrder | apps/api/app/domain/streaming.py:79-109 | A run of events is accepted if and only if it is numbered 1 to n and begins a sentence: start, content and errors, end, errors, done. |
| Chunking.ChunkTexts | apps/api/app/documents/chunking.py:41-69 | Chunks of 1 to `chunk_chars` characters numbered from 0; without their recorded overlaps a section's chunks spell its visible text, all of it while the limit is not reached; each section's group of chunks starts at the number its predecessors leave off at, and its texts are those that its sentences fill. |
| Chunking.ChunkSection | apps/api/app/documents/chunking.py:46-67 | The same for one section, stopped by the limit or not. |
| Chunking.ChunksLeadBack | apps/api/app/documents/chunking.py:57-66 | Every chunk of a section has its page and locator, and the next number. |
| Chunking.Drain | apps/api/app/documents/chunking.py:62-64 | Cutting a long buffer loses nothing, ends, and repeats exactly the overlap. |
| Chunking.Gather | apps/api/app/documents/chunking.py:52-64 | A piece joins the buffer, or the buffer is emitted and its tail starts the next one; what is spelled grows by the piece. |
| Chunking.FilledMore | apps/api/app/documents/chunking.py:52-66 | Chunks once emitted stay when more pieces come. |
| Chunking.CleanKeepsText | apps/api/app/documents/chunking.py:28-38 | Cleaning drops nothing but whitespace. |
| Chunking.SentencesKeepText | apps/api/app/documents/chunking.py:13 | Splitting at sentence boundaries drops nothing but whitespace. |
| Breaks.EveryBreakIsForced | apps/api/app/documents/chunking.py:46-66 | Between any two chunks of a section, either the first has at least 80 characters, ends with a sentence and would be too long with the next one, or it is a full slice of a heading or an overlap and a sentence; the second begins with the end of the first, as long as the overlap allows. |
| Breaks.FittingSectionIsOneChunk | apps/api/app/documents/chunking.py:46-66 | A section whose sentences, joined by single blanks, fit one chunk is that one chunk; an empty one is none. |
| Cleaning.LinesExact | apps/api/app/documents/chunking.py:32 | The lines are what lies between line breaks. |
| Cleaning.CleanTextIsTidy | apps/api/app/documents/chunking.py:28-38 | A cleaned text has single blanks, single or double line feeds, and none of them at an end. |
| Cleaning.CleaningKeepsParagraphs | apps/api/app/documents/chunking.py:28-38 | Cleaning keeps the words of each line, and which lines are in one paragraph. |
| Cleaning.SentencesExact | apps/api/app/documents/chunking.py:13 | A cleaned text is cut after each end mark before whitespace and at each blank line, and nowhere else. |
| Wrap.WrapText | apps/api/app/actions/files.py:154-173 | The lines of a text: never wider than the width, none empty unless alone, and the words in order, cut only where a piece is wider than a line. |
| Wrap.WrappedLinesKeepText | apps/api/app/actions/files.py:154-173 | Lines with those words show every visible character of the text in order. |
| Wrap.WrappedLinesKeepWords | apps/api/app/actions/files.py:154-173 | When no piece is wider than a line, the words come out whole. |
| Lines.LinesEndWhereTheyMust | apps/api/app/actions/files.py:154-173 | Every line but the last ends because it is full with a piece wider than a line, because such a piece follows, or because the next piece does not fit behind it. |
| Wrap.Paginate | apps/api/app/actions/files.py:182-187 | Every page starts with the header, all but the last are full, the bodies concatenate to the lines; a page of the header's size is an error. |
| PdfText.EscapedReadsBackExactlyWhen | apps/api/app/actions/files.py:149-151 | Under the literal-string rules (section 7.3.4.2 of ISO 32000-1) an escaped line reads back unchanged if and only if it holds no carriage return. |
| PdfText.EscapeIsOnePass | apps/api/app/actions/files.py:149-151 | The three replacements together quote each special character once. |
| PdfText.StreamShowsItsLines | apps/api/app/actions/files.py:199-210 | A reader of a content stream gets exactly the texts its operators show. |
| PdfText.PageStream | apps/api/app/actions/files.py:199-210 | A page's stream shows the page's lines and then its number. |
| PdfText.FedExactlyWhen | apps/api/app/actions/files.py:199-210 | The reader gets all lines unchanged if and only if none holds a carriage return. |
| PdfLayout.PageIsPlaced | apps/api/app/actions/files.py:199-210 | By the text operators (sections 9.3 and 9.4 of ISO 32000-1) a page draws its title in bold 13, the rest of the heading in 9 and the body in 10 points, each line 14 points below the one before, and the page number below them. |
| PdfLayout.OnPaperExactlyWhen | apps/api/app/actions/files.py:199-210 | All lines of a page are on the paper exactly up to 58 of them, its number exactly up to 56. |
| PdfLayout.NumbersOnPaperExactlyWhen | apps/api/app/actions/files.py:176-210 | Every page number of a report is on the paper exactly when pages hold at most 56 lines, or there is one page with so few. |
| PdfFile.WriteFile | apps/api/app/actions/files.py:220-232 | The bytes of the file: header, objects, cross-reference section, trailer. |
| PdfFile.ObjectFound | apps/api/app/actions/files.py:222-228 | A reader that goes by `startxref` and the table (sections 7.5.4 and 7.5.5 of ISO 32000-1) finds every object where its entry says. |
| PdfFile.XrefFound | apps/api/app/actions/files.py:225-231 | `startxref` is the offset of the cross-reference section, which announces one entry more than there are objects. |
| PdfFile.TrailerFound | apps/api/app/actions/files.py:229-231 | `/Size` is the number of objects plus one, and `/Root` is the catalog. |
| PdfFile.EntryBytes | apps/api/app/actions/files.py:226-228 | An entry is 20 bytes if and only if its offset is below 10^10. |
| PdfDocument.BuildObjects | apps/api/app/actions/files.py:188-219 | The object numbered in advance as `/Parent` is the page tree for any number of pages; every reference points at the object meant. |
| PdfDocument.DocumentReadsBack | apps/api/app/actions/files.py:188-232 | From the trailer to the catalog, the page tree, the pages and their streams by `/Length`, a reader gets the text of every page. |
| PdfDocument.PagesAreNumbered | apps/api/app/actions/files.py:199-208 | From the last line of a page a reader gets which page it is, and of how many. |
| PdfDocument.HeadingOpens | apps/api/app/actions/files.py:179-184 | A page opens with the title, the subtitle or else the time of writing, both cut to the width, and an empty line. |
| PdfDocument.RenderPdf | apps/api/app/actions/files.py:176-232 | The whole writer: pages laid out from the wrapped lines, and read back page by page from the file's bytes. |
| Decimal.PaddedReadsBack | apps/api/app/actions/files.py:226-228 | A zero-padded number reads back as itself. |
| ColumnLetters.ColumnLetter | apps/api/app/ingestion/wide_marks.py:131-137 | The letters of a column decode, in bijective base 26, to its position. |
| ColumnLetters.ColumnsWriteBack | apps/api/app/actions/files.py:69-75 | Every text of letters is the name of its own column. |
| ColumnLetters.LocatorReadsBack | apps/api/app/ingestion/wide_marks.py:320-322 | A record's locator gives back its row's locator and its column. |
| LabelSplit.CommonSuffix | apps/api/app/ingestion/wide_marks.py:181-189 | The longest run of words, up to case, that all labels end in. |
| LabelSplit.NothingLonger | apps/api/app/ingestion/wide_marks.py:181-189 | No longer run is shared. |
| LabelSplit.SplitLabels | apps/api/app/ingestion/wide_marks.py:192-218 | Which columns take a known group and which are divided at their course's shared ending. |
| LabelSplit.SplitKeepsWords | apps/api/app/ingestion/wide_marks.py:192-218 | For a column outside the known groups, group words followed by subject words are the label's words up to case. |
| LabelSplit.DividesExactlyWhen | apps/api/app/ingestion/wide_marks.py:192-218 | A label is divided exactly when its course's columns share an ending and words are left before it; those are the group, the ending is the subject. |
| LabelSplit.GroupedExactlyWhen | apps/api/app/ingestion/wide_marks.py:192-218 | A known group counts exactly when another column has it too. |
| ExamNaming.FirstFree | apps/api/app/ingestion/wide_marks.py:286-290 | The numbering search ends, with the smallest free number. |
| ExamNaming.NameExams | apps/api/app/ingestion/wide_marks.py:281-291 | No two course columns get the same course and exam, and each keeps its own exam name and a number. |
| ExamNaming.SmallerNumbersAreUsed | apps/api/app/ingestion/wide_marks.py:286-291 | Every smaller number names another column of the same course and exam. |
| WideMarks.Reshape | apps/api/app/ingestion/wide_marks.py:294-345 | The record loop: the tally of the rows read, conserved; at the limit, fewer records than the limit and one row's columns. |
| WideMarks.ReshapeConserves | apps/api/app/ingestion/wide_marks.py:294-345 | Exam rows and blank cells make up the course cells of the rows kept; rows with marks, without marks and skipped make up all rows; grace marks are counted. |
| WideMarks.OriginsExact | apps/api/app/ingestion/wide_marks.py:299-312 | The records come in sheet order from exactly the filled course cells of the rows kept, each cell once. |
| WideMarks.RecordsShowTheirCells | apps/api/app/ingestion/wide_marks.py:320-337 | Each record shows the cell it comes from, under its column's course and exam and its row's student. |
| WideMarks.NoCollisionInARow | apps/api/app/ingestion/wide_marks.py:287-291 | No two exam rows of one student's row are for the same course and exam. |
| WideMarks.LocatorsIdentifyCells | apps/api/app/ingestion/wide_marks.py:322 | Where rows have locators of their own, so do the records. |
| WideMarks.RowsAreListed | apps/api/app/ingestion/wide_marks.py:294-345 | Left out as notes are exactly the rows without identifier and mark, in order; listed as without marks exactly the students' rows whose course cells are blank. |
| WideMarks.GraceIsCounted | apps/api/app/ingestion/wide_marks.py:294-345 | Grace marks are counted for exactly the records with both a mark and a result of their own. |
| WideMarks.NamedColumnsAreApart | apps/api/app/ingestion/wide_marks.py:281-292 | With distinct headers, the naming of exams keeps the columns apart. |
| Retrieval.CauchySchwarz | apps/api/app/documents/embeddings.py:35-43 | The squared dot product is at most the product of the squared norms, for all vectors of equal length. |
| Retrieval.CosineIsBounded | apps/api/app/documents/embeddings.py:35-43 | Cosine similarity lies between -1 and 1. |
| Retrieval.CosineOfItself | apps/api/app/documents/embeddings.py:35-43 | A vector that is not zero has similarity 1 to itself. |
| Retrieval.Embed | apps/api/app/documents/embeddings.py:51-62 | Every entry collects the signed weights of the features hashed to it, and the vector has length 1 unless it is zero. |
| Retrieval.CollectedIsCounted | apps/api/app/documents/embeddings.py:51-62 | An entry before scaling is its positive words less its negative ones, and half as much for neighbouring pairs. |
| Retrieval.FeaturesAreListed | apps/api/app/documents/embeddings.py:54 | The features are the words in order and then each word with the one before it. |
| Search.ScoreIsBounded | apps/api/app/documents/vector_store.py:46-59 | A score is at most 1, and 1 exactly when both parts are. |
| Search.ScoreIsWeighed | apps/api/app/documents/vector_store.py:53-55 | A score is seven tenths of the similarity and three tenths of the share of the query's words. |
| Search.ConsideredExactlyWhen | apps/api/app/documents/vector_store.py:47-49 | With a category only its chunks are considered, without one all. |
| Search.SimilarityAgainstWords | apps/api/app/documents/vector_store.py:53-55 | A chunk that is similar but shares no word ranks before one with all the words but no similarity exactly when the similarity exceeds three sevenths, or equals it in an earlier chunk. |
| Search.SearchChunks | apps/api/app/documents/vector_store.py:46-59 | The hits are positive, ranked, at most `top_k` (at least one allowed), each with its own score, and nothing left out ranks ahead of one returned. |
| Search.ResultIsUnique | apps/api/app/documents/vector_store.py:57-59 | A ranked list is determined by its hits, so these properties settle the result. |
| Evals.GainIsAtMostIdeal | apps/api/app/documents/evals.py:124-125 | For every positive, strictly decreasing discount, the gain is at most the ideal gain, with equality if and only if the relevant items come first. |
| Evals.IsRelevant | apps/api/app/documents/evals.py:103-110 | A passage is relevant exactly when it meets every label that is given. |
| Evals.RetrievalMetrics | apps/api/app/documents/evals.py:113-130 | Every metric is the ratio it stands for and lies between 0 and 1; hit, MRR, precision and nDCG are positive together; recall is 1 exactly when all labelled documents were found. |
| Evals.TokenF1Meaning | apps/api/app/documents/evals.py:94-100 | Token F1 is twice the overlap over both sizes: symmetric, 0 exactly when nothing is shared, 1 exactly for the same words equally often. |

## Left out

- The database, object store, HTTP, mail, queues and model calls: rows are a map, a handler is any function on any world of records, a reply is any text or JSON value.
- Clocks: the time of a call is a parameter, and time passes between protocol steps by any amount.
- SHA-256: the arguments stand for their digest, so two calls with the same digest are the same call.
- JSON encoding of kept plans: the store sorts keys (apps/api/app/institution_data/store.py:42-43), so a kept step's bindings come back in alphabetical order, and a step with two unreadable bindings may report another reason after the resumption than without it; the resumption theorems keep the order, and BindingOrder.ReorderedPlanResumesAlike shows that nothing but that reason (in the source also the step's summary) depends on it.
- Malformed kept plans other than a missing one or one without the stopped step.
- The kept plan's intent, summary and planner name, and the agent recorded on a confirmed call that runs alone: no step depends on them.
- Failing store calls and the message for a specialist that raises: both are logged and end in a branch already modelled or in a failed step.
- Cancellation of a handler in the middle of its effect: the protocol lets a caller vanish at any step, but a handler's effect on the records is one step.
- Routing to open tasks, background jobs, the composition of the answer, tracing and run records (apps/api/app/agents/master.py:263-266, apps/api/app/agents/master.py:278-311).
- Provenance, artifacts and handler warnings of a result, and the contact fields taken out of it before it is returned (apps/api/app/gateway/gateway.py:221): a handler's result is what the caller gets.
- Floating point: scores and metrics are exact reals, the square root is any function that is one, the rank discount any positive decreasing function, rounding is not modelled; a confidence that is not a number neither.
- Regular expressions other than the search marker, the reference grammar and the sentence boundaries: what they find comes in as data.
- Wording: the planner's messages for a missing permission and an unmapped request are shortened, as are gateway and binding error messages; which of them is given is modelled.
- The cp1252 replacement of unencodable characters: a character of the PDF model is a byte.
- Detection of a marks sheet and of its course columns (apps/api/app/ingestion/wide_marks.py:225-279): which columns hold courses comes in as data.
- Sheet, page and OCR fields of reshaped records, and the report of left-out columns.
- XLSX, DOCX, PPTX and CSV writing; only the column letters shared with XLSX are modelled.
- Generation metrics, thresholds and the model judge of the evaluation; reranking.
- A validator that consults the store, and the request identifier a handler receives: a validator sees the principal and the arguments, a handler the records, the principal and the arguments.
- Digits outside ASCII in the index of a reference, which the pattern accepts and the model does not.
- Resumption.ResumeMeansTheSameExactlyWhen: leaves out the plans whose lost step also waits for a step still to run, because there the outcome of that step decides; AnyTools.KeepsMeaningWhateverToolsDo covers them over all outcomes.
- PlanReadiness.ReadyExactlyWhen: the tools' schemas are given, their risk, permissions, validators and handlers are not.
- LabelSplit.SplitLabels: lower-casing and header normalisation are parameters.
- Search.SearchChunks: a hit names its chunk by position and does not copy its text; visibility by classification is applied by the store before.
- ModelPlanner.Parse: a step's bindings come in any order, in the source in the reply's; extracted entities and the summary are not part of a plan.
- Planner.PlanCommand: what the patterns find in the words is data, so the rules are told over their outcomes; intents, purposes and summaries of a plan are not told.
- Streaming.StreamReply: a timeout or provider error is the way a stream ends, at any point; there is no clock in it.
- PdfDocument.RenderPdf: offsets of ten billion bytes and more, which no longer fit the table, are excluded from reading back.
- Resumption.ResumeMeansTheSame: one stop and its resumption; a command that asks again for the same change is the subject of AskingAgain.
- ResumedReadiness.ResumedReadyExactlyWhen: for a rest with other references or calls the exact condition is that of PlanReadiness.ReadyExactlyWhen with the kept outputs; the same holds of AskingAgain.AskedAgainReadyExactlyWhen.
