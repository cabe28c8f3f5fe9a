/** What a confirmation rests on, told from the actions of callers alone: an acceptance by the requester, read in
    time and then written (apps/api/app/gateway/gateway.py, `decide_approval` and `invoke`). */
module Acceptance {
  import opened Values
  import Spec
  import opened Gateway
  import opened Approvals
  import Contracts

  // ------------------------------------------------------------------- acceptances among the actions

  /** The seconds that pass during the actions. */
  function Elapsed(actions: seq<Action>): nat {
    if actions == [] then 0
    else
      var last := actions[|actions| - 1];
      Elapsed(actions[..|actions| - 1]) + if last.Tick? then last.seconds else 0
  }

  /** At action `i`, caller `c` reads the row to accept it as its requester, before it expires. */
  ghost predicate AcceptsAt(s: Protocol, actions: seq<Action>, c: nat, i: nat) {
    && i < |actions| && actions[i] == DecideRead(c, s.row.principal, true)
    && s.now + Elapsed(actions[..i]) <= s.row.expiresAt
  }

  /** After action `i` and before action `j`, caller `c` neither writes nor goes away. */
  ghost predicate StaysIn(actions: seq<Action>, c: nat, i: nat, j: nat) {
    forall m: nat | i < m < j && m < |actions| :: actions[m] != DecideWrite(c) && actions[m] != Vanish(c)
  }

  /** Caller `c` accepts at action `i` and writes that at action `j`. */
  ghost predicate AcceptedBy(s: Protocol, actions: seq<Action>, c: nat, i: nat, j: nat) {
    AcceptsAt(s, actions, c, i) && i < j < |actions| && actions[j] == DecideWrite(c) && StaysIn(actions, c, i, j)
  }

  ghost predicate Accepted(s: Protocol, actions: seq<Action>) {
    exists c: nat, i: nat, j: nat :: AcceptedBy(s, actions, c, i, j)
  }

  /** Caller `c` has accepted and not written that yet. */
  ghost predicate Accepting(s: Protocol, actions: seq<Action>, c: nat) {
    exists i: nat :: AcceptsAt(s, actions, c, i) && StaysIn(actions, c, i, |actions|)
  }

  /** Action `k` starts the handler for caller `c`. */
  ghost predicate Starts(s: Protocol, actions: seq<Action>, k: nat, c: nat) {
    && k < |actions| && Running(Exec(s, actions[..k + 1]), c) && !Running(Exec(s, actions[..k]), c)
  }

  ghost predicate Running(s: Protocol, c: nat) {
    c in s.callers && s.callers[c].Running?
  }

  // ------------------------------------------------------------------- what the row's state tells about the actions

  /** An approved, executing or consumed row, and a caller past its read, go back to an acceptance. */
  ghost predicate Traced(s: Protocol, actions: seq<Action>, e: Protocol) {
    && (e.row.status in {Approved, Executing, Consumed} ==> Accepted(s, actions))
    && (forall c | c in e.callers && !e.callers[c].Deciding? :: Accepted(s, actions))
    && (forall c | c in e.callers && e.callers[c].Deciding? ::
          && e.callers[c].target in {Approved, Rejected, Expired}
          && (e.callers[c].target == Approved ==> Accepting(s, actions, c)))
  }

  lemma {:induction false} TimePasses(s: Protocol, actions: seq<Action>)
    ensures Exec(s, actions).now == s.now + Elapsed(actions)
  {
    if actions != [] {
      TimePasses(s, actions[..|actions| - 1]);
    }
  }

  lemma AcceptedStays(s: Protocol, front: seq<Action>, a: Action)
    requires Accepted(s, front)
    ensures Accepted(s, front + [a])
  {
    var c: nat, i: nat, j: nat :| AcceptedBy(s, front, c, i, j);
    var actions := front + [a];
    assert actions[..i] == front[..i];
    assert AcceptedBy(s, actions, c, i, j);
  }

  lemma AcceptingStays(s: Protocol, front: seq<Action>, a: Action, c: nat)
    requires Accepting(s, front, c) && a != DecideWrite(c) && a != Vanish(c)
    ensures Accepting(s, front + [a], c)
  {
    var i: nat :| AcceptsAt(s, front, c, i) && StaysIn(front, c, i, |front|);
    var actions := front + [a];
    assert actions[..i] == front[..i];
    assert AcceptsAt(s, actions, c, i) && StaysIn(actions, c, i, |actions|);
  }

  lemma AcceptanceWritten(s: Protocol, front: seq<Action>, c: nat)
    requires Accepting(s, front, c)
    ensures Accepted(s, front + [DecideWrite(c)])
  {
    var i: nat :| AcceptsAt(s, front, c, i) && StaysIn(front, c, i, |front|);
    var actions := front + [DecideWrite(c)];
    assert actions[..i] == front[..i];
    assert AcceptedBy(s, actions, c, i, |front|);
  }

  lemma AcceptanceRead(s: Protocol, front: seq<Action>, c: nat)
    requires s.now + Elapsed(front) <= s.row.expiresAt
    ensures Accepting(s, front + [DecideRead(c, s.row.principal, true)], c)
  {
    var actions := front + [DecideRead(c, s.row.principal, true)];
    assert actions[..|front|] == front;
    assert AcceptsAt(s, actions, c, |front|) && StaysIn(actions, c, |front|, |actions|);
  }

  /** The recorded call does not change. */
  ghost predicate SameRecord(row: Approval, other: Approval) {
    other.(status := row.status) == row
  }

  lemma StepStaysTraced(s: Protocol, front: seq<Action>, e: Protocol, a: Action)
    requires e == Exec(s, front) && Traced(s, front, e) && SameRecord(s.row, e.row)
    ensures Traced(s, front + [a], Next(e, a)) && SameRecord(s.row, Next(e, a).row)
  {
    TimePasses(s, front);
    if Accepted(s, front) {
      AcceptedStays(s, front, a);
    }
    StatusStaysTraced(s, front, e, a);
    CallersStayTraced(s, front, e, a);
    DecidersStayTraced(s, front, e, a);
  }

  lemma StatusStaysTraced(s: Protocol, front: seq<Action>, e: Protocol, a: Action)
    requires Traced(s, front, e) && (Accepted(s, front) ==> Accepted(s, front + [a]))
    ensures Next(e, a).row.status in {Approved, Executing, Consumed} ==> Accepted(s, front + [a])
  {
    if a.DecideWrite? && a.caller in e.callers && e.callers[a.caller].Deciding?
        && e.callers[a.caller].target == Approved {
      AcceptanceWritten(s, front, a.caller);
    }
  }

  lemma CallersStayTraced(s: Protocol, front: seq<Action>, e: Protocol, a: Action)
    requires Traced(s, front, e) && (Accepted(s, front) ==> Accepted(s, front + [a]))
    ensures forall c | c in Next(e, a).callers && !Next(e, a).callers[c].Deciding? :: Accepted(s, front + [a])
  {
  }

  lemma DecidersStayTraced(s: Protocol, front: seq<Action>, e: Protocol, a: Action)
    requires Traced(s, front, e) && SameRecord(s.row, e.row) && e.now == s.now + Elapsed(front)
    ensures forall c | c in Next(e, a).callers && Next(e, a).callers[c].Deciding? ::
              && Next(e, a).callers[c].target in {Approved, Rejected, Expired}
              && (Next(e, a).callers[c].target == Approved ==> Accepting(s, front + [a], c))
  {
    forall c | c in Next(e, a).callers && Next(e, a).callers[c].Deciding? && Next(e, a).callers[c].target == Approved
      ensures Accepting(s, front + [a], c)
    {
      if c in e.callers {
        AcceptingStays(s, front, a, c);
      } else {
        AcceptanceRead(s, front, c);
      }
    }
  }

  lemma {:induction false} AlwaysTraced(s: Protocol, actions: seq<Action>)
    requires Fresh(s)
    ensures Traced(s, actions, Exec(s, actions)) && SameRecord(s.row, Exec(s, actions).row)
  {
    if actions != [] {
      var front := actions[..|actions| - 1];
      AlwaysTraced(s, front);
      StepStaysTraced(s, front, Exec(s, front), actions[|actions| - 1]);
      assert actions == front + [actions[|actions| - 1]];
    }
  }

  // ------------------------------------------------------------------- the theorems

  /** In every interleaving: whenever a handler is started, it is for the recorded call, before the row expires, and an
      earlier acceptance by the requester was read in time and written since. */
  lemma HandlersStartAccepted(s: Protocol, actions: seq<Action>, k: nat, c: nat)
    requires Fresh(s) && Starts(s, actions, k, c)
    ensures Accepted(s, actions[..k]) && s.now + Elapsed(actions[..k]) < s.row.expiresAt
    ensures Exec(s, actions[..k + 1]).callers[c].call == TheCall(s.row)
  {
    var front, a := actions[..k], actions[k];
    assert actions[..k + 1] == front + [a];
    ExecOn(s, front, a);
    AlwaysTraced(s, front);
    TimePasses(s, front);
    AuthorisedAlways(s, front);
    StartedByAClaim(Exec(s, front), a, c);
  }

  /** Only a claim of the approved, unexpired row starts a handler, for the call that was checked. */
  lemma StartedByAClaim(e: Protocol, a: Action, c: nat)
    requires AuthInv(e) && Running(Next(e, a), c) && !Running(e, c)
    ensures c in e.callers && e.callers[c].Checked? && e.row.status == Approved && e.now < e.row.expiresAt
    ensures Next(e, a).callers[c].call == TheCall(e.row)
  {
  }

  /** A row that its requester only refuses never starts a handler. */
  lemma RefusedNeverRuns(s: Protocol, actions: seq<Action>, k: nat, c: nat)
    requires Fresh(s)
    requires forall a | a in actions && a.DecideRead? && a.decider == s.row.principal :: !a.approve
    ensures !Starts(s, actions, k, c)
  {
    if Starts(s, actions, k, c) {
      HandlersStartAccepted(s, actions, k, c);
      RefusedIsNotAccepted(s, actions[..k]);
    }
  }

  lemma RefusedIsNotAccepted(s: Protocol, actions: seq<Action>)
    requires forall a | a in actions && a.DecideRead? && a.decider == s.row.principal :: !a.approve
    ensures !Accepted(s, actions)
  {
    forall c: nat, i: nat, j: nat ensures !AcceptedBy(s, actions, c, i, j) {
      if i < |actions| {
        assert actions[i] in actions;
      }
    }
  }

  /** A decision by the requester, and then a call of what is recorded. */
  function DecideThenCall(row: Approval, approve: bool): seq<Action> {
    [DecideRead(0, row.principal, approve), DecideWrite(0), Action.Read(1, TheCall(row)), TryClaim(1)]
  }

  /** One decision, then a call: the handler is started exactly when the decision was an acceptance. */
  lemma DecidedThenCalled(s: Protocol, approve: bool)
    requires Fresh(s) && s.now < s.row.expiresAt
    ensures Starts(s, DecideThenCall(s.row, approve), 3, 1) <==> approve
  {
    var actions := DecideThenCall(s.row, approve);
    var a, b, c, d := actions[0], actions[1], actions[2], actions[3];
    ExecFour(s, a, b, c, d);
    ExecOn(s, [a, b], c);
    assert actions[..3] == [a, b] + [c] && actions[..4] == actions == [a, b, c, d];
    var decided := Next(Next(s, a), b);
    assert decided.callers == map[];
  }

  // ------------------------------------------------------------------- calls of the gateway, taken whole

  /** An operation of the gateway on its state. */
  datatype Operation =
    | Calls(ctx: Context, tool: string, arguments: Args)
    | Decides(principal: string, id: nat, approve: bool, now: int)
    | KeepsPlan(principal: string, id: nat, kept: Contracts.Kept)

  function Operate<W>(env: Env<W>, st: State<W>, o: Operation): State<W> {
    match o
    case Calls(ctx, tool, arguments) => Invoke(env, ctx, st, tool, arguments).0
    case Decides(principal, id, approve, now) => Decide(st, principal, id, approve, now).0
    case KeepsPlan(principal, id, kept) => SetResume(st, principal, id, kept)
  }

  function OperateAll<W>(env: Env<W>, st: State<W>, operations: seq<Operation>): State<W>
    decreases |operations|
  {
    if operations == [] then st else OperateAll(env, Operate(env, st, operations[0]), operations[1..])
  }

  /** New rows get numbers that no row has. */
  ghost predicate Numbered<W>(st: State<W>) {
    forall id | id in st.approvals :: id < st.nextId
  }

  /** A refused, expired or consumed row is never touched again. */
  ghost predicate Settled<W>(st: State<W>, id: nat) {
    Numbered(st) && id in st.approvals && Terminal(st.approvals[id].status)
  }

  lemma OperationLeavesSettled<W>(env: Env<W>, st: State<W>, o: Operation, id: nat)
    requires Settled(st, id)
    ensures Settled(Operate(env, st, o), id) && Operate(env, st, o).approvals[id] == st.approvals[id]
  {
    if o.Calls? {
      CallLeavesSettled(env, o.ctx, st, o.tool, o.arguments, id);
    }
  }

  lemma CallLeavesSettled<W>(env: Env<W>, ctx: Context, st: State<W>, toolName: string, arguments: Args, id: nat)
    requires Settled(st, id)
    ensures var after := Invoke(env, ctx, st, toolName, arguments).0;
            && Settled(after, id) && after.approvals[id] == st.approvals[id]
  {
    if toolName in env.tools {
      var checked := Check(env, ctx.principal, env.tools[toolName], arguments);
      if checked.Ok? && env.tools[toolName].risk == Spec.HighRisk {
        ChangeLeavesSettled(env, ctx, st, env.tools[toolName], checked.value, id);
      }
    }
  }

  lemma ChangeLeavesSettled<W>(env: Env<W>, ctx: Context, st: State<W>, tool: Tool<W>, checked: Args, id: nat)
    requires Settled(st, id)
    ensures var after := ChangeRecord(env, ctx, st, tool, checked).0;
            && Settled(after, id) && after.approvals[id] == st.approvals[id]
            && (ctx.approvalId == Some(id) ==> after.calls == st.calls && after.world == st.world)
  {
    var usable := ApprovalState(ctx, st, tool.name, checked).0;
    if usable.Some? && Claimable(st.approvals[usable.value], ctx.principal, ctx.now) {
      var claimed := WithStatus(st, usable.value, Executing);
      HandlingLeavesSettled(ctx, claimed, tool, checked, usable.value, id);
    }
  }

  lemma HandlingLeavesSettled<W>(ctx: Context, st: State<W>, tool: Tool<W>, checked: Args, claimed: nat, id: nat)
    requires Settled(st, id) && claimed in st.approvals && claimed != id
    ensures var after := Handle(ctx, st, tool, checked, Some(claimed)).0;
            Settled(after, id) && after.approvals[id] == st.approvals[id]
  {
  }

  lemma {:induction false} StaysSettled<W>(env: Env<W>, st: State<W>, operations: seq<Operation>, id: nat)
    requires Settled(st, id)
    ensures var after := OperateAll(env, st, operations);
            Settled(after, id) && after.approvals[id] == st.approvals[id]
    decreases |operations|
  {
    if operations != [] {
      OperationLeavesSettled(env, st, operations[0], id);
      StaysSettled(env, Operate(env, st, operations[0]), operations[1..], id);
    }
  }

  /** After the requester has refused, no call that carries the row ever runs its handler, whatever happens between. */
  lemma RefusalIsFinal<W>(env: Env<W>, st: State<W>, id: nat, now: int, operations: seq<Operation>, ctx: Context,
      toolName: string, arguments: Args)
    requires Numbered(st) && id in st.approvals && st.approvals[id].status == Pending
    requires ctx.approvalId == Some(id) && toolName in env.tools && env.tools[toolName].risk == Spec.HighRisk
    ensures var (refused, error) := Decide(st, st.approvals[id].principal, id, false, now);
            var later := OperateAll(env, refused, operations);
            var after := Invoke(env, ctx, later, toolName, arguments).0;
            && error == None && refused.approvals[id] == st.approvals[id].(status := Rejected)
            && after.calls == later.calls && after.world == later.world
  {
    var refused := Decide(st, st.approvals[id].principal, id, false, now).0;
    StaysSettled(env, refused, operations, id);
    var later := OperateAll(env, refused, operations);
    var checked := Check(env, ctx.principal, env.tools[toolName], arguments);
    if checked.Ok? {
      ChangeLeavesSettled(env, ctx, later, env.tools[toolName], checked.value, id);
    }
  }

  /** After a decision by the requester, the recorded call can be run exactly when the decision was an acceptance in
      time. */
  lemma UsableExactlyWhenAccepted<W>(st: State<W>, id: nat, approve: bool, now: int, ctx: Context)
    requires id in st.approvals && st.approvals[id].status == Pending
    requires ctx.approvalId == Some(id) && ctx.principal == st.approvals[id].principal
            && ctx.now < st.approvals[id].expiresAt
    ensures var row := st.approvals[id];
            Confirmed(ctx, Decide(st, row.principal, id, approve, now).0, row.tool, row.arguments) <==>
            approve && now <= row.expiresAt
  {
  }

  /** Nobody else decides, and nothing is decided twice. */
  lemma OnlyTheRequesterDecides<W>(st: State<W>, principal: string, id: nat, approve: bool, now: int)
    ensures var (after, error) := Decide(st, principal, id, approve, now);
            && (after.approvals != st.approvals ==>
                  && id in st.approvals && principal == st.approvals[id].principal
                      && st.approvals[id].status == Pending)
            && (error == None <==>
                  && id in st.approvals && principal == st.approvals[id].principal && st.approvals[id].status == Pending
                  && (approve ==> now <= st.approvals[id].expiresAt))
            && (error.Some? && after.approvals != st.approvals ==> after.approvals[id].status == Expired)
  {
  }
}
