/** Delegation without a lock across the ack: the cycle and depth checks are made in
    Phase A only, yet hold when Phase C flips the executor, in every interleaving. */
module Delegation {
  import opened Options
  import opened TaskStates
  import opened TaskTable
  import opened TaskHistory

  predicate NoRepeats(trail: seq<AgentId>) {
    forall i, j :: 0 <= i < j < |trail| ==> trail[i] != trail[j]
  }

  /** Every executor a task has had: the original one, then each destination. */
  function Trail(s: State, t: TaskId): (trail: seq<AgentId>)
    requires t in s.rows
    ensures |trail| == 1 + |HopsOf(s.events, t)|
  {
    [s.rows[t].agent] + HopsOf(s.events, t)
  }

  ghost predicate TrailOk(s: State, t: TaskId)
    requires t in s.rows
  {
    var trail := Trail(s, t);
    && NoRepeats(trail)
    && |trail| <= s.limits.maxHops + 1
    && trail[|trail| - 1] == s.rows[t].active
  }

  /** What Phase A established stays true of its record while the ack is awaited. */
  ghost predicate HandoffOk(s: State, h: Handoff) {
    && h.task in s.rows && s.rows[h.task].user == h.user
    && h.prior <= HopsOf(s.events, h.task)
    && |h.prior| < s.limits.maxHops
    && var seen := [s.rows[h.task].agent] + h.prior;
       seen[|seen| - 1] == h.caller && h.dest !in seen
  }

  ghost predicate DelegationInv(s: State) {
    && (forall t :: t in s.rows ==> TrailOk(s, t))
    && (forall t :: t !in s.rows ==> HopsOf(s.events, t) == [])
    && (forall id :: id in s.handoffs ==> HandoffOk(s, s.handoffs[id]))
  }

  lemma HopsAppend(events: seq<Event>, e: Event, t: TaskId)
    ensures HopsOf(events + [e], t) ==
            HopsOf(events, t) + (if e.Delegated? && e.task == t then [e.dest] else [])
  {
    assert (events + [e])[..|events|] == events;
  }

  predicate SameExecutor(a: Row, b: Row) {
    b.agent == a.agent && b.active == a.active && b.user == a.user
  }

  /** A step that hands nothing on: executors and trails are as they were, and a new
      row starts with its own executor. */
  ghost predicate Quiet(s: State, s': State) {
    && s'.limits == s.limits && s'.handoffs == s.handoffs
    && (forall t :: t in s.rows ==> t in s'.rows && SameExecutor(s.rows[t], s'.rows[t]))
    && (forall t :: t in s'.rows && t !in s.rows ==> s'.rows[t].active == s'.rows[t].agent)
    && (s'.events == s.events
        || exists e :: s'.events == s.events + [e] && !e.Delegated?)
  }

  lemma QuietKeepsDelegation(s: State, s': State)
    requires DelegationInv(s) && Quiet(s, s')
    ensures DelegationInv(s')
  {
    forall t
      ensures HopsOf(s'.events, t) == HopsOf(s.events, t)
    {
      if s'.events != s.events {
        var e :| s'.events == s.events + [e] && !e.Delegated?;
        HopsAppend(s.events, e, t);
      }
    }
    forall t | t in s'.rows
      ensures TrailOk(s', t)
    {
      if t in s.rows {
        assert TrailOk(s, t);
        assert Trail(s', t) == Trail(s, t);
      }
    }
    forall id | id in s'.handoffs
      ensures HandoffOk(s', s'.handoffs[id])
    {
      assert HandoffOk(s, s.handoffs[id]);
    }
  }

  lemma TransitionQuiet(s: State, t: TaskId, to: TaskState, cause: Cause,
                        code: Option<int>, output: Option<Blob>, error: Option<Blob>)
    ensures var r := Transition(s, t, to, cause, code, output, error);
            r.Ok? ==> Quiet(s, r.value)
  {
    var r := Transition(s, t, to, cause, code, output, error);
    if r.Ok? {
      var e := r.value.events[|s.events|];
      assert r.value.events == s.events + [e] && !e.Delegated?;
    }
  }

  lemma FailQuiet(s: State, t: TaskId, status: TaskStatus, code: int, error: Blob)
    requires status == TaskStatus.Failed || status == TaskStatus.TimedOut
    ensures Quiet(s, FailRow(s, t, status, code, error))
  {
    TransitionQuiet(s, t, StateFromStatus(status), ByFailure, Some(code), None, Some(error));
  }

  lemma AnswerQuiet(s: State, id: RequestId, outcome: AckOutcome, error: Blob)
    ensures Quiet(s, Answer(s, id, outcome, error))
  {
    if id in s.admissions && s.admissions[id].Created? {
      var t := s.admissions[id].task;
      match outcome
      case Accepted => TransitionQuiet(s, t, TaskState.Running, ByAck, None, None, None);
      case Disconnected => FailQuiet(s, t, TaskStatus.Failed, 503, error);
      case TimedOutWaiting => FailQuiet(s, t, TaskStatus.Failed, 504, error);
      case Refusal => FailQuiet(s, t, TaskStatus.Failed, 400, error);
      case Broken =>
    }
  }

  lemma InsertQuiet(s: State, id: RequestId, t: TaskId)
    ensures Quiet(s, Insert(s, id, t))
  {
    var s' := Insert(s, id, t);
    if s'.events != s.events {
      var e := s'.events[|s.events|];
      assert s'.events == s.events + [e] && !e.Delegated?;
    }
  }

  lemma OtherStepsQuiet(s: State, step: Step)
    requires !step.SAsk? && !step.SFlip? && !step.SGiveUp?
    ensures Quiet(s, Apply(s, step))
  {
    match step
    case SResult(t, reporter, status, code, output, error) =>
      TransitionQuiet(s, t, StateFromStatus(status), ByResult, Some(code), output, error);
    case SCancel(t, note) => TransitionQuiet(s, t, TaskState.Cancelled, ByCancel, None, None, None);
    case SFail(t, timedOut, code, failure) => FailQuiet(s, t, FailureStatus(timedOut), code, failure);
    case SForceFail(_, _, _, _) =>
    case SArrive(_, _) =>
    case SMeasure(_) =>
    case SDeny(_, _) =>
    case SInsert(id, t) => InsertQuiet(s, id, t);
    case SRetry(_) =>
    case SAnswer(id, outcome, failure) => AnswerQuiet(s, id, outcome, failure);
  }

  lemma AskKeepsDelegation(s: State, id: RequestId, t: TaskId, user: UserId, caller: AgentId, dest: AgentId)
    requires DelegationInv(s)
    ensures DelegationInv(Ask(s, id, t, user, caller, dest))
  {
    var s' := Ask(s, id, t, user, caller, dest);
    if s' != s {
      ValidatedHandoffOk(s, t, user, caller, dest);
      HandoffsKeepDelegation(s, s', id);
    }
  }

  lemma ValidatedHandoffOk(s: State, t: TaskId, user: UserId, caller: AgentId, dest: AgentId)
    requires t in s.rows ==> TrailOk(s, t)
    requires ValidateHandoff(s, t, user, caller, dest).Ok?
    ensures HandoffOk(s, ValidateHandoff(s, t, user, caller, dest).value)
  {
    var h := ValidateHandoff(s, t, user, caller, dest).value;
    assert h.prior == HopsOf(s.events, t);
    assert [s.rows[t].agent] + h.prior == Trail(s, t);
  }

  /** Only in-flight records changed, by one at most. */
  lemma HandoffsKeepDelegation(s: State, s': State, id: RequestId)
    requires DelegationInv(s) && s' == s.(handoffs := s'.handoffs)
    requires forall k :: k in s'.handoffs && k != id ==> k in s.handoffs && s'.handoffs[k] == s.handoffs[k]
    requires id in s'.handoffs ==> HandoffOk(s, s'.handoffs[id])
    ensures DelegationInv(s')
  {
    forall u | u in s'.rows ensures TrailOk(s', u) { assert TrailOk(s, u); }
    forall k | k in s'.handoffs ensures HandoffOk(s', s'.handoffs[k]) {
      if k != id { assert HandoffOk(s, s.handoffs[k]); }
    }
  }

  lemma GiveUpKeepsDelegation(s: State, id: RequestId)
    requires DelegationInv(s)
    ensures DelegationInv(GiveUp(s, id))
  {
    HandoffsKeepDelegation(s, GiveUp(s, id), id);
  }

  /** The heart of the matter. The caller of an in-flight delegation is the last of the
      agents it read, and a trail without repeats holds that agent only once; so finding
      the caller active again means nothing was appended in between. */
  lemma CallerActiveMeansNothingMoved(s: State, h: Handoff)
    requires h.task in s.rows && TrailOk(s, h.task) && HandoffOk(s, h)
    ensures s.rows[h.task].active == h.caller <==> HopsOf(s.events, h.task) == h.prior
  {
    var trail, at := Trail(s, h.task), |h.prior|;
    assert trail[at] == h.caller by {
      if at > 0 { assert trail[at] == HopsOf(s.events, h.task)[at - 1] == h.prior[at - 1]; }
    }
    if s.rows[h.task].active == h.caller {
      assert trail[|trail| - 1] == trail[at];
      assert at == |trail| - 1;
    }
  }

  lemma FlipHops(s: State, h: Handoff)
    requires FlipHandoff(s, h).Ok?
    ensures forall u :: HopsOf(FlipHandoff(s, h).value.events, u) ==
                        HopsOf(s.events, u) + (if u == h.task then [h.dest] else [])
  {
    forall u
      ensures HopsOf(FlipHandoff(s, h).value.events, u) == HopsOf(s.events, u) + (if u == h.task then [h.dest] else [])
    {
      HopsAppend(s.events, Delegated(h.task, h.caller, h.dest), u);
    }
  }

  lemma FlippedTrailOk(s: State, h: Handoff)
    requires h.task in s.rows && TrailOk(s, h.task) && HandoffOk(s, h) && FlipHandoff(s, h).Ok?
    ensures TrailOk(FlipHandoff(s, h).value, h.task)
  {
    CallerActiveMeansNothingMoved(s, h);
    FlipHops(s, h);
    assert Trail(FlipHandoff(s, h).value, h.task) == Trail(s, h.task) + [h.dest];
  }

  lemma FlippedElsewhere(s: State, h: Handoff, u: TaskId)
    requires u in s.rows && u != h.task && TrailOk(s, u) && FlipHandoff(s, h).Ok?
    ensures TrailOk(FlipHandoff(s, h).value, u)
  {
    FlipHops(s, h);
    assert Trail(FlipHandoff(s, h).value, u) == Trail(s, u);
  }

  lemma FlippedHandoffOk(s: State, h: Handoff, g: Handoff)
    requires HandoffOk(s, g) && FlipHandoff(s, h).Ok?
    ensures HandoffOk(FlipHandoff(s, h).value, g)
  {
    FlipHops(s, h);
    assert HopsOf(s.events, g.task) <= HopsOf(FlipHandoff(s, h).value.events, g.task);
  }

  lemma FlipExtendsTrail(s: State, h: Handoff)
    requires DelegationInv(s) && HandoffOk(s, h) && FlipHandoff(s, h).Ok?
    ensures DelegationInv(FlipHandoff(s, h).value)
  {
    var s' := FlipHandoff(s, h).value;
    forall u | u in s'.rows ensures TrailOk(s', u) {
      assert TrailOk(s, u);
      if u == h.task { FlippedTrailOk(s, h); } else { FlippedElsewhere(s, h, u); }
    }
    forall u | u !in s'.rows ensures HopsOf(s'.events, u) == [] { FlipHops(s, h); }
    forall k | k in s'.handoffs ensures HandoffOk(s', s'.handoffs[k]) {
      assert HandoffOk(s, s.handoffs[k]);
      FlippedHandoffOk(s, h, s.handoffs[k]);
    }
  }

  lemma StepKeepsDelegation(s: State, step: Step)
    requires DelegationInv(s)
    ensures DelegationInv(Apply(s, step))
  {
    match step
    case SAsk(id, t, user, caller, dest) => AskKeepsDelegation(s, id, t, user, caller, dest);
    case SGiveUp(id) => GiveUpKeepsDelegation(s, id);
    case SFlip(id) =>
      if id in s.handoffs {
        assert HandoffOk(s, s.handoffs[id]);
        if FlipHandoff(s, s.handoffs[id]).Ok? {
          FlipExtendsTrail(s, s.handoffs[id]);
          GiveUpKeepsDelegation(FlipHandoff(s, s.handoffs[id]).value, id);
        } else {
          GiveUpKeepsDelegation(s, id);
        }
      }
    case _ =>
      OtherStepsQuiet(s, step);
      QuietKeepsDelegation(s, Apply(s, step));
  }

  /** In every run, with any number of overlapping delegations, results, cancels and
      failures: each task's trail is free of repeats, at most maxHops long after its
      first agent, and ends in the agent recorded as active. */
  lemma {:induction false} TrailsInEveryRun(limits: Limits, steps: seq<Step>)
    requires LegalLimits(limits)
    ensures DelegationInv(Run(Start(limits), steps))
    decreases |steps|
  {
    if steps != [] {
      TrailsInEveryRun(limits, steps[..|steps| - 1]);
      StepKeepsDelegation(Run(Start(limits), steps[..|steps| - 1]), steps[|steps| - 1]);
    }
  }

  /** Who may hand a task on: its active executor, while it is live, to an agent that never
      had it, as long as it made fewer hops than the limit. */
  predicate MayHandOn(s: State, t: TaskId, user: UserId, caller: AgentId, dest: AgentId) {
    && t in s.rows && s.rows[t].user == user && !s.rows[t].state.Terminal() && s.rows[t].active == caller
    && |HopsOf(s.events, t)| < s.limits.maxHops && dest !in Trail(s, t)
  }

  /** The first of the five reasons that applies. */
  function HandOnError(s: State, t: TaskId, user: UserId, caller: AgentId, dest: AgentId): AdmitError
    requires !MayHandOn(s, t, user, caller, dest)
  {
    if t !in s.rows || s.rows[t].user != user then TaskUnknown
    else if s.rows[t].state.Terminal() then TaskTerminal
    else if s.rows[t].active != caller then NotActiveExecutor
    else if |HopsOf(s.events, t)| >= s.limits.maxHops then DelegationDepthExceeded
    else DelegationCycle
  }

  /** Phase A accepts exactly the delegations that may be made, with the whole history as
      its record, although its query is cut off; otherwise it gives the first reason. */
  lemma PhaseAExactly(s: State, t: TaskId, user: UserId, caller: AgentId, dest: AgentId)
    ensures var verdict := ValidateHandoff(s, t, user, caller, dest);
            if MayHandOn(s, t, user, caller, dest) then verdict == Ok(Handoff(t, user, caller, dest, HopsOf(s.events, t)))
            else verdict == Err(HandOnError(s, t, user, caller, dest))
  {
    if t in s.rows {
      var hops, trail := HopsOf(s.events, t), Trail(s, t);
      assert dest in trail <==> dest == s.rows[t].agent || dest in hops by {
        if dest in hops { var i :| 0 <= i < |hops| && hops[i] == dest; assert trail[i + 1] == dest; }
        assert trail[0] == s.rows[t].agent;
      }
    }
  }

  /** Phase C succeeds exactly when the task is still live and its delegation history is
      the one Phase A read; a task that went away from its caller and came back (ABA)
      does not exist. */
  lemma FlipIffHistoryUnchanged(limits: Limits, past: seq<Step>, id: RequestId)
    requires LegalLimits(limits)
    requires id in Run(Start(limits), past).handoffs
    ensures var s := Run(Start(limits), past);
            var h := s.handoffs[id];
            && h.task in s.rows
            && (FlipHandoff(s, h).Ok? <==>
                !s.rows[h.task].state.Terminal() && HopsOf(s.events, h.task) == h.prior)
            && (FlipHandoff(s, h).Ok? ==>
                ValidateHandoff(s, h.task, h.user, h.caller, h.dest) == Ok(h))
  {
    var s := Run(Start(limits), past);
    TrailsInEveryRun(limits, past);
    var h := s.handoffs[id];
    assert HandoffOk(s, h);
    assert TrailOk(s, h.task);
    CallerActiveMeansNothingMoved(s, h);
  }

  lemma {:induction false} RunKeepsDelegation(s: State, future: seq<Step>)
    requires DelegationInv(s)
    ensures DelegationInv(Run(s, future))
    decreases |future|
  {
    if future != [] {
      RunKeepsDelegation(s, future[..|future| - 1]);
      StepKeepsDelegation(Run(s, future[..|future| - 1]), future[|future| - 1]);
    }
  }

  lemma HopsPrefix(events: seq<Event>, events': seq<Event>, t: TaskId)
    requires events <= events'
    ensures HopsOf(events, t) <= HopsOf(events', t)
    decreases |events'|
  {
    if |events'| > |events| {
      HopsPrefix(events, events'[..|events'| - 1], t);
    } else {
      assert events == events';
    }
  }

  /** An agent that handed a task on is never its executor again, however the run goes
      on, and nothing it reports about the task is ever accepted. */
  lemma HandedOnForGood(limits: Limits, past: seq<Step>, future: seq<Step>, t: TaskId, i: nat,
                        status: TaskStatus, code: int, output: Option<Blob>, error: Option<Blob>)
    requires LegalLimits(limits)
    requires t in Run(Start(limits), past).rows
    requires i + 1 < |Trail(Run(Start(limits), past), t)|
    ensures var s := Run(Start(limits), past);
            var s' := Run(s, future);
            var gone := Trail(s, t)[i];
            && t in s'.rows && s'.rows[t].active != gone
            && CompleteTask(s', t, gone, status, code, output, error) == s'
  {
    var s := Run(Start(limits), past);
    var s' := Run(s, future);
    TrailsInEveryRun(limits, past);
    RunKeepsDelegation(s, future);
    RunEvolves(s, future);
    HopsPrefix(s.events, s'.events, t);
    assert RowEvolves(s.rows[t], s'.rows[t]);
    assert TrailOk(s', t);
    assert Trail(s, t) <= Trail(s', t);
    assert Trail(s', t)[i] == Trail(s, t)[i];
  }
}
