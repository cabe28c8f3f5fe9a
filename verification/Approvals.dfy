/** One approval row under any interleaving of invocations and decisions
    (apps/api/app/gateway/gateway.py and the row updates of institution_data/store.py).
    Every read and every write of the row is a step of its own; only the store's claim is atomic. */
module Approvals {
  import opened Values
  import opened Gateway
  import opened Sets
  import Spec

  /** Where a caller is: between its read and its write, or running the handler. */
  datatype Pc =
    | Checked(call: Call)
    | Running(call: Call)
    | Succeeded(call: Call)
    | HasFailed(call: Call)
    | Deciding(decider: string, target: ApprovalStatus)

  /** A claim of the row, with what was known when it was made. */
  datatype Claim = Claim(call: Call, at: int, acceptedBy: Option<string>)

  datatype Protocol = Protocol(
    row: Approval,
    now: int,
    callers: map<nat, Pc>,
    acceptedBy: Option<string>,
    claims: seq<Claim>,
    successes: nat)

  datatype Action =
    | Tick(seconds: nat)
    | Read(caller: nat, call: Call)
    | TryClaim(caller: nat)
    | HandlerReturns(caller: nat, done: bool)
    | Settle(caller: nat)
    | DecideRead(caller: nat, decider: string, approve: bool)
    | DecideWrite(caller: nat)
    | Vanish(caller: nat)

  function Leave(s: Protocol, caller: nat): Protocol {
    s.(callers := s.callers - {caller})
  }

  function Write(s: Protocol, status: ApprovalStatus): Protocol {
    s.(row := s.row.(status := status))
  }

  /** What `_approval_state` looks at for a call that names this row. */
  predicate LooksUsable(row: Approval, call: Call, now: int) {
    && row.principal == call.principal && row.tool == call.tool && row.arguments == call.arguments
    && row.status == Approved && !(row.expiresAt < now)
  }

  /** One step; an action that does not apply changes nothing. */
  function Next(s: Protocol, a: Action): Protocol {
    match a
    case Tick(seconds) => s.(now := s.now + seconds)
    case Read(c, call) =>
      if c !in s.callers && LooksUsable(s.row, call, s.now) then s.(callers := s.callers[c := Checked(call)]) else s
    case TryClaim(c) =>
      if c !in s.callers || !s.callers[c].Checked? then s
      else
        var call := s.callers[c].call;
        if Claimable(s.row, call.principal, s.now) then
          Write(s, Executing).(callers := s.callers[c := Running(call)],
              claims := s.claims + [Claim(call, s.now, s.acceptedBy)])
        else Leave(s, c)
    case HandlerReturns(c, done) =>
      if c !in s.callers || !s.callers[c].Running? then s
      else if done then s.(callers := s.callers[c := Succeeded(s.callers[c].call)], successes := s.successes + 1)
      else s.(callers := s.callers[c := HasFailed(s.callers[c].call)])
    case Settle(c) =>
      if c !in s.callers then s
      else if s.callers[c].Succeeded? then Leave(Write(s, Consumed), c)
      else if s.callers[c].HasFailed? then Leave(Write(s, Approved), c)
      else s
    case DecideRead(c, who, approve) =>
      if c !in s.callers && s.row.principal == who && s.row.status == Pending then
        s.(callers := s.callers[c := Deciding(who, if !approve then Rejected
            else if s.row.expiresAt < s.now then Expired else Approved)])
      else s
    case DecideWrite(c) =>
      if c !in s.callers || !s.callers[c].Deciding? then s
      else
        var Deciding(who, target) := s.callers[c];
        Leave(Write(s, target), c).(acceptedBy := if target == Approved then Some(who) else s.acceptedBy)
    case Vanish(c) => Leave(s, c)
  }

  function Exec(s: Protocol, actions: seq<Action>): Protocol {
    if actions == [] then s else Next(Exec(s, actions[..|actions| - 1]), actions[|actions| - 1])
  }

  ghost predicate Fresh(s: Protocol) {
    s.row.status == Pending && s.callers == map[] && s.acceptedBy == None && s.claims == [] && s.successes == 0
  }

  function Deciders(s: Protocol): set<nat> {
    set c | c in s.callers && s.callers[c].Deciding?
  }

  predicate Holds(pc: Pc) {
    pc.Running? || pc.Succeeded? || pc.HasFailed?
  }

  /** At no moment of the run are more than `k` decisions between their read and their write. */
  ghost predicate DecidersBounded(s: Protocol, actions: seq<Action>, k: nat) {
    forall i | 0 <= i <= |actions| :: |Deciders(Exec(s, actions[..i]))| <= k
  }

  predicate Terminal(status: ApprovalStatus) {
    status == Consumed || status == Rejected || status == Expired
  }

  // ------------------------------------------------------------ what is safe

  /** One claim outstanding at most, and one success at most. */
  ghost predicate SingleUse(s: Protocol) {
    && (forall a, b | a in s.callers && b in s.callers && Holds(s.callers[a]) && Holds(s.callers[b]) :: a == b)
    && s.successes <= 1
  }

  /** Every claim was of the recorded call, accepted by its requester, before it expired. */
  ghost predicate ClaimsAuthorised(s: Protocol) {
    forall i | 0 <= i < |s.claims| ::
      var c := s.claims[i];
      && c.call == Call(s.row.principal, s.row.tool, s.row.arguments)
      && c.acceptedBy == Some(s.row.principal)
      && c.at < s.row.expiresAt
  }

  ghost predicate StaysTerminal(s: Protocol, actions: seq<Action>) {
    forall i | 0 <= i < |actions| && Terminal(Exec(s, actions[..i]).row.status) ::
      Exec(s, actions[..i + 1]).row.status == Exec(s, actions[..i]).row.status
  }

  ghost predicate Safe(s: Protocol, actions: seq<Action>) {
    SingleUse(Exec(s, actions)) && StaysTerminal(s, actions)
  }

  // --------------------------------------------- authorised, in every interleaving

  ghost predicate AuthInv(s: Protocol) {
    && ClaimsAuthorised(s)
    && (s.acceptedBy.Some? ==> s.acceptedBy.value == s.row.principal)
    && (s.row.status in {Approved, Executing, Consumed} ==> s.acceptedBy.Some?)
    && (forall c | c in s.callers ::
          var pc := s.callers[c];
          && (pc.Deciding? ==> pc.decider == s.row.principal && pc.target in {Approved, Rejected, Expired})
          && (!pc.Deciding? ==> pc.call == Call(s.row.principal, s.row.tool, s.row.arguments) && s.acceptedBy.Some?))
  }

  lemma {:induction false} AuthorisedAlways(s: Protocol, actions: seq<Action>)
    requires Fresh(s)
    ensures AuthInv(Exec(s, actions)) && Exec(s, actions).row.(status := Pending) == s.row
  {
    if actions != [] {
      var front := actions[..|actions| - 1];
      AuthorisedAlways(s, front);
      StepKeepsAuth(Exec(s, front), actions[|actions| - 1]);
    }
  }

  lemma StepKeepsAuth(s: Protocol, a: Action)
    requires AuthInv(s)
    ensures AuthInv(Next(s, a)) && Next(s, a).row.(status := Pending) == s.row.(status := Pending)
  {
  }

  /** Whatever the interleaving, and however many decisions race: a handler is only ever started for the
      principal, tool and arguments recorded when the confirmation was asked for, after that principal
      accepted it, and before it expired. */
  lemma HandlersAreAuthorised(s: Protocol, actions: seq<Action>)
    requires Fresh(s)
    ensures var e := Exec(s, actions);
            && ClaimsAuthorised(e)
            && e.row.principal == s.row.principal && e.row.tool == s.row.tool && e.row.arguments == s.row.arguments
                && e.row.expiresAt == s.row.expiresAt
  {
    AuthorisedAlways(s, actions);
    assert s.row == Exec(s, actions).row.(status := Pending);
  }

  // ------------------------------------------- single use, one decision at a time

  ghost predicate Inv(s: Protocol) {
    && SingleUse(s)
    && (forall c | c in s.callers && s.callers[c].Deciding? ::
        s.row.status == Pending && s.callers[c].target != Pending)
    && (forall c | c in s.callers && Holds(s.callers[c]) :: s.row.status == Executing)
    && (s.successes > 0 ==> s.row.status == Consumed || s.row.status == Executing)
    && (forall c | c in s.callers && s.successes > 0 && Holds(s.callers[c]) :: s.callers[c].Succeeded?)
    && (forall c | c in s.callers && s.callers[c].Succeeded? :: s.successes > 0)
  }

  lemma AloneDecides(s: Protocol, c: nat, d: nat)
    requires |Deciders(s)| <= 1 && c in Deciders(s) && d in Deciders(s)
    ensures c == d
  {
    SubsetSize({c, d}, Deciders(s));
  }

  lemma StepKeepsInv(s: Protocol, a: Action)
    requires Inv(s) && |Deciders(s)| <= 1
    ensures Inv(Next(s, a))
    ensures Terminal(s.row.status) ==> Next(s, a).row.status == s.row.status
  {
    if a.DecideWrite? && a.caller in s.callers && s.callers[a.caller].Deciding? {
      forall c | c in s.callers && s.callers[c].Deciding? ensures c == a.caller {
        AloneDecides(s, c, a.caller);
      }
    }
  }

  lemma {:induction false} InvAlways(s: Protocol, actions: seq<Action>)
    requires Fresh(s) && DecidersBounded(s, actions, 1)
    ensures Inv(Exec(s, actions)) && StaysTerminal(s, actions)
  {
    if actions != [] {
      var n := |actions| - 1;
      var front := actions[..n];
      forall i | 0 <= i <= n ensures front[..i] == actions[..i] {}
      InvAlways(s, front);
      assert |Deciders(Exec(s, actions[..n]))| <= 1;
      StepKeepsInv(Exec(s, front), actions[n]);
      assert actions[..n + 1] == actions;
      forall i | 0 <= i < |actions| && Terminal(Exec(s, actions[..i]).row.status)
        ensures Exec(s, actions[..i + 1]).row.status == Exec(s, actions[..i]).row.status
      {
        if i < n {
          assert front[..i] == actions[..i] && front[..i + 1] == actions[..i + 1];
        }
      }
    }
  }

  // ------------------------------------------------ two decisions at a time

  function TheCall(row: Approval): Call {
    Call(row.principal, row.tool, row.arguments)
  }

  /** Two acceptances read the pending row; the second writes after the first was already claimed. */
  function RacingDecisions(row: Approval): seq<Action> {
    var call := TheCall(row);
    [DecideRead(1, row.principal, true), DecideRead(2, row.principal, true), DecideWrite(1),
     Read(3, call), TryClaim(3), DecideWrite(2), Read(4, call), TryClaim(4)]
  }

  lemma {:induction false} ExecOn(s: Protocol, actions: seq<Action>, a: Action)
    ensures Exec(s, actions + [a]) == Next(Exec(s, actions), a)
  {
    assert (actions + [a])[..|actions|] == actions;
  }

  /** The states the race passes through. */
  function RaceState(s: Protocol, i: nat): Protocol {
    var call, d := TheCall(s.row), Deciding(s.row.principal, Approved);
    var accepted := s.(acceptedBy := Some(s.row.principal));
    var claim := Claim(call, s.now, Some(s.row.principal));
    match i
    case 0 => s
    case 1 => s.(callers := map[1 := d])
    case 2 => s.(callers := map[1 := d, 2 := d])
    case 3 => Write(accepted, Approved).(callers := map[2 := d])
    case 4 => Write(accepted, Approved).(callers := map[2 := d, 3 := Checked(call)])
    case 5 => Write(accepted, Executing).(callers := map[2 := d, 3 := Running(call)], claims := [claim])
    case 6 => Write(accepted, Approved).(callers := map[3 := Running(call)], claims := [claim])
    case 7 => Write(accepted, Approved).(callers := map[3 := Running(call), 4 := Checked(call)], claims := [claim])
    case _ => Write(accepted, Executing).(callers := map[3 := Running(call), 4 := Running(call)],
        claims := [claim, claim])
  }

  lemma RaceStep(s: Protocol, i: nat)
    requires Fresh(s) && s.now < s.row.expiresAt && i < 8
    ensures Next(RaceState(s, i), RacingDecisions(s.row)[i]) == RaceState(s, i + 1)
  {
    var call, d := TheCall(s.row), Deciding(s.row.principal, Approved);
    if i == 2 {
      assert map[1 := d, 2 := d] - {1} == map[2 := d];
    } else if i == 5 {
      assert map[2 := d, 3 := Running(call)] - {2} == map[3 := Running(call)];
    }
  }

  lemma {:induction false} RaceUnfolds(s: Protocol, i: nat)
    requires Fresh(s) && s.now < s.row.expiresAt && i <= 8
    ensures Exec(s, RacingDecisions(s.row)[..i]) == RaceState(s, i) && Deciders(RaceState(s, i)) <= {1, 2}
  {
    if i > 0 {
      RaceUnfolds(s, i - 1);
      RaceStep(s, i - 1);
      var run := RacingDecisions(s.row);
      assert run[..i][..i - 1] == run[..i - 1];
    }
  }

  lemma RaceBreaksSingleUse(s: Protocol)
    requires Fresh(s) && s.now < s.row.expiresAt
    ensures DecidersBounded(s, RacingDecisions(s.row), 2)
    ensures var e := Exec(s, RacingDecisions(s.row));
            !SingleUse(e) && e.callers == map[3 := Running(TheCall(s.row)), 4 := Running(TheCall(s.row))]
  {
    var run := RacingDecisions(s.row);
    RaceUnfolds(s, 8);
    assert run[..8] == run;
    forall i | 0 <= i <= |run| ensures |Deciders(Exec(s, run[..i]))| <= 2 {
      RaceUnfolds(s, i);
      SubsetSize(Deciders(Exec(s, run[..i])), {1, 2});
    }
    var e := Exec(s, run);
    assert Holds(e.callers[3]) && Holds(e.callers[4]);
  }

  /** The bound on racing decisions under which every run of a live row is single use and leaves a
      consumed, rejected or expired row alone: exactly one. */
  lemma SafeExactlyWhenDecisionsAreSerial(s: Protocol, k: nat)
    requires Fresh(s) && s.now < s.row.expiresAt
    ensures (forall actions | DecidersBounded(s, actions, k) :: Safe(s, actions)) <==> k <= 1
  {
    if k <= 1 {
      forall actions | DecidersBounded(s, actions, k) ensures Safe(s, actions) {
        assert DecidersBounded(s, actions, 1) by {
          forall i | 0 <= i <= |actions| ensures |Deciders(Exec(s, actions[..i]))| <= 1 {}
        }
        InvAlways(s, actions);
      }
    } else {
      var run := RacingDecisions(s.row);
      RaceBreaksSingleUse(s);
      assert DecidersBounded(s, run, k) by {
        forall i | 0 <= i <= |run| ensures |Deciders(Exec(s, run[..i]))| <= k {}
      }
    }
  }

  // ------------------------------------- the gateway's own calls are such runs

  function AtRest(row: Approval, now: int): Protocol {
    Protocol(row, now, map[], if row.status in {Approved, Executing, Consumed} then Some(row.principal)
        else None, [], 0)
  }

  lemma ExecFour(s: Protocol, a: Action, b: Action, c: Action, d: Action)
    ensures Exec(s, [a, b]) == Next(Next(s, a), b)
    ensures Exec(s, [a, b, c, d]) == Next(Next(Next(Next(s, a), b), c), d)
  {
    ExecOn(s, [], a);
    ExecOn(s, [a], b);
    ExecOn(s, [a, b], c);
    ExecOn(s, [a, b, c], d);
    assert [] + [a] == [a] && [a] + [b] == [a, b] && [a, b] + [c] == [a, b, c] && [a, b, c] + [d] == [a, b, c, d];
  }

  /** `decide_approval` is its read followed by its write. */
  lemma DecideIsTwoSteps<W>(st: State<W>, principal: string, id: nat, approve: bool, now: int)
    requires id in st.approvals
    ensures Decide(st, principal, id, approve, now).0.approvals[id] ==
            Exec(AtRest(st.approvals[id], now), [DecideRead(0, principal, approve), DecideWrite(0)]).row
  {
    ExecFour(AtRest(st.approvals[id], now), DecideRead(0, principal, approve), DecideWrite(0), Tick(0), Tick(0));
  }

  /** The row after one call alone: read, claim, handler, settling write. */
  lemma AloneRow(row: Approval, now: int, call: Call, done: bool)
    ensures Exec(AtRest(row, now), [Read(0, call), TryClaim(0), HandlerReturns(0, done), Settle(0)]).row ==
            if LooksUsable(row, call, now) && Claimable(row, call.principal, now) then
                row.(status := if done then Consumed else Approved) else row
  {
    ExecFour(AtRest(row, now), Read(0, call), TryClaim(0), HandlerReturns(0, done), Settle(0));
    var s := Next(AtRest(row, now), Read(0, call));
    var s' := Next(s, TryClaim(0));
    if LooksUsable(row, call, now) {
      assert s.callers == map[0 := Checked(call)];
      if Claimable(row, call.principal, now) {
        assert s'.callers == map[0 := Running(call)];
      } else {
        assert s'.callers == map[];
      }
    }
  }

  /** A record change through the gateway is exactly those four steps on the row it names. */
  lemma InvokeIsFourSteps<W>(env: Env<W>, ctx: Context, st: State<W>, tool: Tool<W>, arguments: Args, id: nat)
    requires tool.name in env.tools && env.tools[tool.name] == tool && tool.risk == Spec.HighRisk
    requires Check(env, ctx.principal, tool, arguments).Ok?
    requires ctx.approvalId == Some(id) && id in st.approvals && id < st.nextId
    ensures var call := Call(ctx.principal, tool.name, Check(env, ctx.principal, tool, arguments).value);
            var done := tool.handler(st.world, ctx.principal, call.arguments).1.Done?;
            Invoke(env, ctx, st, tool.name, arguments).0.approvals[id] ==
            Exec(AtRest(st.approvals[id], ctx.now), [Read(0, call), TryClaim(0), HandlerReturns(0, done),
                Settle(0)]).row
  {
    var call := Call(ctx.principal, tool.name, Check(env, ctx.principal, tool, arguments).value);
    AloneRow(st.approvals[id], ctx.now, call, tool.handler(st.world, ctx.principal, call.arguments).1.Done?);
  }
}
