/** The router's multi-transaction requests as methods over its mutable tables. At every
    point where the router awaits, `Interleave` lets an arbitrary sequence of other
    requests' transactions run. */
module RouterTasks {
  import opened Options
  import opened TaskStates
  import opened TaskTable
  import opened TaskHistory
  import opened TaskTree
  import opened Delegation
  import opened Outcomes
  import opened Idempotency
  import opened TaskEffects

  datatype Aspect = Trails | Trees | Outcome | Keys

  ghost predicate Holds(s: State, aspect: Aspect) {
    match aspect
    case Trails => DelegationInv(s)
    case Trees => TreeInv(s)
    case Outcome => OutcomesInv(s)
    case Keys => KeysInv(s)
  }

  /** Everything proved of reachable states. */
  ghost predicate Sound(s: State) {
    forall aspect :: Holds(s, aspect)
  }

  lemma SoundMeans(s: State)
    ensures Sound(s) <==> DelegationInv(s) && TreeInv(s) && OutcomesInv(s) && KeysInv(s)
  {
    assert Sound(s) ==> Holds(s, Trails) && Holds(s, Trees) && Holds(s, Outcome) && Holds(s, Keys);
  }

  lemma StepKeepsSound(s: State, step: Step)
    requires Sound(s)
    ensures Sound(Apply(s, step))
  {
    SoundMeans(s);
    SoundMeans(Apply(s, step));
    StepKeepsDelegation(s, step);
    StepKeepsTree(s, step);
    StepKeepsOutcomes(s, step);
    StepKeepsKeys(s, step);
  }

  lemma {:induction false} RunKeepsSound(s: State, steps: seq<Step>)
    requires Sound(s)
    ensures Sound(Run(s, steps))
    decreases |steps|
  {
    if steps != [] {
      RunKeepsSound(s, steps[..|steps| - 1]);
      StepKeepsSound(Run(s, steps[..|steps| - 1]), steps[|steps| - 1]);
    }
  }

  /** One entry of a cancel's fan-out plan, read under the lock that cancelled the row. */
  datatype Planned = Planned(task: TaskId, active: AgentId, caller: AgentId)

  function PlannedTasks(plan: seq<Planned>): set<TaskId> {
    set p | p in plan :: p.task
  }

  ghost predicate AllOver(s: State, tasks: set<TaskId>) {
    forall x :: x in tasks ==> x in s.rows && s.rows[x].state.Terminal()
  }

  predicate Distinct(plan: seq<Planned>) {
    forall i, j :: 0 <= i < j < |plan| ==> plan[i].task != plan[j].task
  }

  /** What the sweep's transaction on x adds to the plan. */
  function PlanEntry(s: State, x: TaskId): seq<Planned> {
    if Transition(s, x, TaskState.Cancelled, ByCancel, None, None, None).Ok?
    then [Planned(x, s.rows[x].active, s.rows[x].caller)] else []
  }

  predicate Over(row: Row, planned: bool) {
    row.state.Terminal() && (row.state == TaskState.Cancelled <==> planned)
  }

  predicate Targets(p: Planned, row: Row) {
    row.state == TaskState.Cancelled && p.active == row.active && p.caller == row.caller
  }

  /** The executor is sent a CancelFrame, and the caller a Result that says so. */
  ghost predicate Told(s: State, p: Planned) {
    && CancelFrame(p.task, p.active) in s.cancels
    && exists i :: 0 <= i < |s.results| && TellsOfCancel(s.results[i], p)
  }

  predicate TellsOfCancel(f: ResultFrame, p: Planned) {
    f.task == p.task && f.to == p.caller && f.status == TaskStatus.Cancelled && f.code == 499 && f.output.None?
  }

  ghost predicate AllTold(s: State, plan: seq<Planned>) {
    forall p :: p in plan ==> Told(s, p)
  }

  /** What a finished sweep over `done` guarantees: each task is over; it is cancelled
      exactly when the plan names it; the plan names its executor and caller; and both are
      told. */
  ghost predicate Swept(s: State, done: set<TaskId>, plan: seq<Planned>) {
    && (forall x :: x in done ==> x in s.rows && Over(s.rows[x], x in PlannedTasks(plan)))
    && (forall p :: p in plan ==> p.task in s.rows && Targets(p, s.rows[p.task]))
    && AllTold(s, plan)
  }

  /** The plan stays right for ever: whatever runs next, the swept tasks stay over and the
      agents the CancelFrames are addressed to stay the tasks' executors. */
  lemma SweptForGood(s: State, done: set<TaskId>, plan: seq<Planned>, future: seq<Step>)
    requires Swept(s, done, plan)
    ensures Swept(Run(s, future), done, plan)
  {
    RunEvolves(s, future);
    SweptEvolves(s, Run(s, future), done, plan);
  }

  lemma SweptEvolves(s: State, s': State, done: set<TaskId>, plan: seq<Planned>)
    requires Swept(s, done, plan) && Evolves(s, s')
    ensures Swept(s', done, plan)
  {
    forall x | x in done ensures x in s'.rows && s'.rows[x] == s.rows[x] {
      assert RowEvolves(s.rows[x], s'.rows[x]);
    }
    forall p | p in plan ensures p.task in s'.rows && s'.rows[p.task] == s.rows[p.task] {
      assert RowEvolves(s.rows[p.task], s'.rows[p.task]);
    }
    ToldStays(s, s', plan);
  }

  lemma ToldStays(s: State, s': State, plan: seq<Planned>)
    requires AllTold(s, plan) && s.results <= s'.results && s.cancels <= s'.cancels
    ensures AllTold(s', plan)
  {
    forall p | p in plan ensures Told(s', p) {
      assert Told(s, p);
      var i :| 0 <= i < |s.results| && TellsOfCancel(s.results[i], p);
      assert s'.results[i] == s.results[i];
      var j :| 0 <= j < |s.cancels| && s.cancels[j] == CancelFrame(p.task, p.active);
      assert s'.cancels[j] == s.cancels[j];
    }
  }

  /** The transaction that adds a row to the plan is the one that tells of it. */
  lemma EntryTold(s: State, x: TaskId, note: Blob)
    ensures AllTold(CancelRow(s, x, note), PlanEntry(s, x))
  {
    CancelIsTaken(s, x, note);
    if PlanEntry(s, x) != [] {
      var s', p := CancelRow(s, x, note), PlanEntry(s, x)[0];
      LiveTasksCanAlwaysBeEnded(s.rows[x].state);
      assert TellsOfCancel(s'.results[|s.results|], p) && s'.cancels[|s.cancels|] == CancelFrame(x, p.active);
      assert Told(s', p) && PlanEntry(s, x) == [p];
    }
  }

  /** A live row can always be cancelled, so a refused cancel means another ending won. */
  lemma CancelRowSettles(s: State, x: TaskId, note: Blob)
    requires x in s.rows
    ensures var s' := CancelRow(s, x, note);
            && x in s'.rows && s'.rows[x].state.Terminal()
            && s'.rows[x].active == s.rows[x].active && s'.rows[x].caller == s.rows[x].caller
            && (Transition(s, x, TaskState.Cancelled, ByCancel, None, None, None).Ok? <==>
                s'.rows[x].state == TaskState.Cancelled)
  {
    LiveTasksCanAlwaysBeEnded(s.rows[x].state);
  }

  /** The descendant query only grows as rows are added. */
  lemma BelowMonotone(a: map<TaskId, Row>, b: map<TaskId, Row>, user: UserId, f: set<TaskId>, g: set<TaskId>, budget: nat)
    requires SamePlaces(a, b) && f <= g
    ensures Below(a, user, f, budget) <= Below(b, user, g, budget)
    decreases budget
  {
    if budget > 0 {
      assert Children(a, user, f) <= Children(b, user, g);
      BelowMonotone(a, b, user, Children(a, user, f), Children(b, user, g), budget - 1);
    }
  }

  lemma DescendantsGrow(s: State, s': State, user: UserId, t: TaskId)
    requires Evolves(s, s')
    ensures Descendants(s.rows, user, t) <= Descendants(s'.rows, user, t)
  {
    forall u | u in s.rows ensures u in s'.rows && RowEvolves(s.rows[u], s'.rows[u]) {}
    assert SamePlaces(s.rows, s'.rows);
    BelowMonotone(s.rows, s'.rows, user, Children(s.rows, user, {t}), Children(s'.rows, user, {t}), MAX_TREE);
  }

  /** Only rows added since the snapshot: what is below t and still live escaped the sweep
      because it was admitted later. */
  ghost predicate OnlyLateAreLive(s: State, snapshot: State, user: UserId, t: TaskId) {
    forall x :: x in Descendants(s.rows, user, t) ==>
      x in s.rows && (s.rows[x].state.Terminal() || x !in snapshot.rows)
  }

  lemma SweptLeavesOnlyLate(s: State, snapshot: State, user: UserId, t: TaskId, done: set<TaskId>, plan: seq<Planned>)
    requires Sound(s) && Sound(snapshot) && Evolves(snapshot, s)
    requires Swept(s, done, plan) && Descendants(snapshot.rows, user, t) <= done
    ensures OnlyLateAreLive(s, snapshot, user, t)
  {
    DescendantsAreRows(s, user, t);
    assert Holds(s, Trees) && Holds(snapshot, Trees);
    forall x | x in Descendants(s.rows, user, t) && x in snapshot.rows ensures s.rows[x].state.Terminal() {
      DescendantsWereThere(snapshot, s, user, t, x);
    }
  }

  lemma DescendantsAreRows(s: State, user: UserId, t: TaskId)
    requires Sound(s)
    ensures Descendants(s.rows, user, t) <= s.rows.Keys
  {
    SoundMeans(s);
    forall x | x in Descendants(s.rows, user, t) ensures x in s.rows { DescendantsExactIn(s, user, t, x); }
  }

  /** How a validated delegation is refused: by the ack, else by what Phase C finds. */
  function DelegationRefusal(ack: AckOutcome, state: TaskState): AdmitError {
    match ack
    case Accepted => if state.Terminal() then TaskTerminal else NotActiveExecutor
    case Disconnected => AgentDisconnected
    case TimedOutWaiting => AckTimeout
    case Refusal => Rejected
    case Broken => InternalError
  }

  class Router {
    const limits: Limits
    var rows: map<TaskId, Row>
    var events: seq<Event>
    var results: seq<ResultFrame>
    var cancels: seq<CancelFrame>
    var handoffs: map<RequestId, Handoff>
    var admissions: map<RequestId, Admission>

    function Now(): State
      reads this
    {
      State(limits, rows, events, results, cancels, handoffs, admissions)
    }

    constructor (limits: Limits)
      requires LegalLimits(limits)
      ensures Now() == Start(limits) && Sound(Now())
    {
      this.limits := limits;
      rows, events, results, cancels, handoffs, admissions := map[], [], [], [], map[], map[];
      new;
      TrailsInEveryRun(limits, []);
      TreeInEveryRun(limits, []);
      OutcomesInEveryRun(limits, []);
      KeysInEveryRun(limits, []);
      SoundMeans(Now());
    }

    /** Other requests' transactions run here, any number of them. */
    method Interleave() returns (ghost steps: seq<Step>)
      requires Sound(Now())
      modifies this
      ensures Now() == Run(old(Now()), steps)
      ensures Sound(Now()) && Evolves(old(Now()), Now())
    {
      var others: seq<Step> := *;
      RunKeepsSound(Now(), others);
      RunEvolves(Now(), others);
      var next := Run(Now(), others);
      rows, events, results, cancels := next.rows, next.events, next.results, next.cancels;
      handoffs, admissions := next.handoffs, next.admissions;
      steps := others;
    }

    /** task_transition, under the row lock of the enclosing transaction. */
    method TaskTransition(t: TaskId, to: TaskState, cause: Cause,
                          code: Option<int>, output: Option<Blob>, error: Option<Blob>)
      returns (r: Result<TaskState, TransitionError>)
      modifies this`rows, this`events
      ensures match Transition(old(Now()), t, to, cause, code, output, error)
              case Err(e) => r == Err(e) && Now() == old(Now())
              case Ok(s) => t in old(rows) && r == Ok(old(rows)[t].state) && Now() == s
    {
      if t !in rows { return Err(NotFound); }
      var previous := rows[t].state;
      if previous == to {
        events := events + [Stayed(t, to, cause)];
        return Ok(previous);
      }
      if to !in Allowed(previous) { return Err(Illegal); }
      rows := rows[t := rows[t].(state := to,
                                 statusCode := Coalesce(code, rows[t].statusCode),
                                 output := Coalesce(output, rows[t].output),
                                 error := Coalesce(error, rows[t].error))];
      events := events + [Moved(t, to, cause)];
      return Ok(previous);
    }

    /** complete_task up to its fan-out. */
    method Complete(t: TaskId, reporter: AgentId, status: TaskStatus, code: int,
                    output: Option<Blob>, error: Option<Blob>)
      modifies this
      ensures Now() == CompleteTask(old(Now()), t, reporter, status, code, output, error)
      ensures ReportTaken(old(Now()), Now(), t, reporter, status, code, output, error)
    {
      CompleteIsTaken(Now(), t, reporter, status, code, output, error);
      if t !in rows { return; }
      var caller := rows[t].caller;
      if reporter != rows[t].active { return; }
      var r := TaskTransition(t, StateFromStatus(status), ByResult, Some(code), output, error);
      match r
      case Err(_) => return;
      case Ok(previous) =>
        var origin := if previous == StateFromStatus(status) then Repeat else First;
        results := results + [ResultFrame(t, caller, status, code, output, error, origin)];
    }

    /** One row's transaction in the sweep: the transition, then the plan entry read under
        the same lock. */
    method CancelOne(x: TaskId, note: Blob) returns (planned: seq<Planned>)
      modifies this
      ensures Now() == CancelRow(old(Now()), x, note)
      ensures planned == PlanEntry(old(Now()), x)
      ensures CancelTaken(old(Now()), Now(), x, note)
    {
      CancelIsTaken(Now(), x, note);
      var r := TaskTransition(x, TaskState.Cancelled, ByCancel, None, None, None);
      if r.Err? { return []; }
      var origin := if r.value == TaskState.Cancelled then Repeat else First;
      results := results +
        [ResultFrame(x, rows[x].caller, TaskStatus.Cancelled, 499, None, Some(note), origin)];
      cancels := cancels + [CancelFrame(x, rows[x].active)];
      return [Planned(x, rows[x].active, rows[x].caller)];
    }

    /** The loop shared by cancel_task and fail_task's cascade: one transaction per row,
        other requests running between the rows. */
    method CancelRows(targets: set<TaskId>, first: TaskId, note: Blob) returns (plan: seq<Planned>)
      requires Sound(Now())
      modifies this
      ensures Sound(Now()) && Evolves(old(Now()), Now())
      ensures Swept(Now(), targets * old(rows).Keys, plan)
      ensures Distinct(plan) && PlannedTasks(plan) <= targets
      ensures first in PlannedTasks(plan) ==> plan[0].task == first
    {
      ghost var before := Now();
      plan := [];
      var todo := targets;
      while todo != {}
        invariant todo <= targets && Sound(Now()) && Evolves(before, Now())
        invariant Swept(Now(), (targets - todo) * before.rows.Keys, plan)
        invariant Distinct(plan) && PlannedTasks(plan) <= targets - todo
        invariant first in todo ==> plan == []
        invariant first in PlannedTasks(plan) ==> plan[0].task == first
        decreases todo
      {
        var x :| x in todo && (first in todo ==> x == first);
        ghost var s0 := Now();
        ghost var others := Interleave();
        ghost var s1 := Now();
        var entry := CancelOne(x, note);
        SweepStep(before, s0, s1, Now(), targets, todo, plan, x, note);
        FirstStays(plan, entry, first, x);
        plan := plan + entry;
        todo := todo - {x};
      }
      assert (targets - todo) * before.rows.Keys == targets * before.rows.Keys;
    }

    /** cancel_task. The snapshot is the task and its descendants when the sweep starts. */
    method CancelTask(t: TaskId, user: UserId, note: Blob) returns (cancelled: nat, plan: seq<Planned>)
      requires Sound(Now())
      modifies this
      ensures Sound(Now()) && Evolves(old(Now()), Now())
      ensures cancelled == |plan|
      ensures Swept(Now(), ({t} + Descendants(old(rows), user, t)) * old(rows).Keys, plan)
      ensures OnlyLateAreLive(Now(), old(Now()), user, t)
      ensures Distinct(plan) && PlannedTasks(plan) <= {t} + Descendants(old(rows), user, t)
      ensures t in PlannedTasks(plan) ==> plan[0].task == t
    {
      DescendantsAreRows(Now(), user, t);
      ghost var snapshot := Now();
      plan := CancelRows({t} + Descendants(rows, user, t), t, note);
      cancelled := |plan|;
      SweptLeavesOnlyLate(Now(), snapshot, user, t, ({t} + Descendants(snapshot.rows, user, t)) * snapshot.rows.Keys, plan);
    }

    /** fail_task's own transaction, with the upward Result it plans. */
    method FailOwn(t: TaskId, status: TaskStatus, code: int, error: Blob)
      returns (r: Result<TaskState, TransitionError>)
      requires status == TaskStatus.Failed || status == TaskStatus.TimedOut
      modifies this
      ensures Now() == FailRow(old(Now()), t, status, code, error)
      ensures FailureTaken(old(Now()), Now(), t, status, code, error)
      ensures r.Ok? <==> t in old(rows) && (!old(rows)[t].state.Terminal() || IsOutcome(old(rows)[t].state, status))
    {
      FailureIsTaken(Now(), t, status, code, error);
      if t in rows { TableByTarget(rows[t].state, status); }
      r := TaskTransition(t, StateFromStatus(status), ByFailure, Some(code), None, Some(error));
      if r.Ok? && rows[t].parent.Some? && rows[t].parent.value in rows {
        var origin := if r.value == StateFromStatus(status) then Repeat else First;
        results := results + [ResultFrame(t, rows[rows[t].parent.value].agent, status, code,
                                          None, Some(error), origin)];
      }
    }

    /** fail_task: the task's own ending, then the cascade over whatever is below it by
        then, which `snapshot` records. Refused when another ending won. */
    method FailTask(t: TaskId, status: TaskStatus, code: int, error: Blob, note: Blob)
      returns (failed: bool, plan: seq<Planned>, ghost snapshot: State)
      requires Sound(Now())
      requires status == TaskStatus.Failed || status == TaskStatus.TimedOut
      modifies this
      ensures Sound(Now()) && Evolves(old(Now()), Now())
      ensures !failed ==> Now() == old(Now()) && (t in rows ==> rows[t].state.Terminal())
      ensures failed <==> t in old(rows) && (!old(rows)[t].state.Terminal() || IsOutcome(old(rows)[t].state, status))
      ensures failed ==> FailureStands(old(Now()), Now(), t, status, code, error)
      ensures failed ==> Evolves(FailRow(old(Now()), t, status, code, error), snapshot) && Evolves(snapshot, Now())
      ensures failed ==> Swept(Now(), Descendants(snapshot.rows, old(rows)[t].user, t), plan)
      ensures failed ==> Descendants(old(rows), old(rows)[t].user, t) <= Descendants(snapshot.rows, old(rows)[t].user, t)
      ensures failed ==> OnlyLateAreLive(Now(), snapshot, old(rows)[t].user, t)
    {
      plan := [];
      ghost var s0 := Now();
      var r := FailOwn(t, status, code, error);
      if r.Err? {
        if t in rows { LiveTasksCanAlwaysBeEnded(rows[t].state); }
        return false, [], s0;
      }
      var user := rows[t].user;
      FailStep(s0, Now(), t, status, code, error);
      FailureStandsAtOnce(s0, Now(), t, status, code, error);

      ghost var s1 := Now();
      ghost var others := Interleave();
      snapshot := Now();
      DescendantsAreRows(snapshot, user, t);
      plan := CancelRows(Descendants(rows, user, t), t, note);
      FailCascade(s0, s1, snapshot, Now(), user, t, plan);
      FailureStillStands(s0, s1, snapshot, Now(), t, status, code, error);
      failed := true;
    }

    /** The batch loops of the deadline sweep and of the disconnect cleanup. `turns` gives the
        state each task's turn came in: what was live then ends with this failure. */
    method FailBatch(batch: set<TaskId>, status: TaskStatus, code: int, error: Blob, note: Blob)
      returns (ghost turns: map<TaskId, State>)
      requires Sound(Now()) && batch <= rows.Keys
      requires status == TaskStatus.Failed || status == TaskStatus.TimedOut
      modifies this
      ensures Sound(Now()) && Evolves(old(Now()), Now())
      ensures AllOver(Now(), batch)
      ensures EachInTurn(old(Now()), Now(), turns, batch, status, code, error)
    {
      ghost var before := Now();
      turns := map[];
      var todo := batch;
      while todo != {}
        invariant todo <= batch
        invariant Sound(Now()) && Evolves(before, Now())
        invariant AllOver(Now(), batch - todo)
        invariant EachInTurn(before, Now(), turns, batch - todo, status, code, error)
        decreases todo
      {
        var x :| x in todo;
        ghost var s0 := Now();
        ghost var others := Interleave();
        ghost var s1 := Now();
        var failed, plan, _ := FailTask(x, status, code, error, note);
        BatchStep(before, s0, s1, Now(), batch - todo, x);
        TurnTaken(before, s0, s1, Now(), turns, batch - todo, x, status, code, error);
        turns, todo := turns[x := s1], todo - {x};
      }
    }

    /** fail_inflight_for_agent. The rows are chosen by their ORIGINAL executor, which after
        a delegation is not the agent doing the work. */
    method FailInflightForAgent(agent: AgentId, error: Blob, note: Blob) returns (ghost turns: map<TaskId, State>)
      requires Sound(Now())
      modifies this
      ensures Sound(Now()) && Evolves(old(Now()), Now())
      ensures forall x :: x in old(rows) && old(rows)[x].agent == agent ==> x in rows && rows[x].state.Terminal()
      ensures forall x :: x in old(rows) && old(rows)[x].active == agent && HopsOf(old(events), x) == [] ==>
                x in rows && rows[x].state.Terminal()
      ensures EachInTurn(old(Now()), Now(), turns, InflightOf(old(Now()), agent), TaskStatus.Failed, 503, error)
    {
      ghost var before := Now();
      assert Holds(before, Trails);
      var live := InflightOf(Now(), agent);
      turns := FailBatch(live, TaskStatus.Failed, 503, error, note);
      forall x | x in before.rows && before.rows[x].agent == agent ensures x in rows && rows[x].state.Terminal() {
        assert RowEvolves(before.rows[x], rows[x]);
      }
      forall x | x in before.rows && HopsOf(before.events, x) == [] ensures before.rows[x].active == before.rows[x].agent {
        assert TrailOk(before, x);
      }
    }

    /** The delegation branch of admit_task: validate under a short lock, await the ack with
        no lock held, re-lock and flip. The record of Phase A is local to the request. */
    method AdmitDelegation(t: TaskId, user: UserId, caller: AgentId, dest: AgentId, ack: AckOutcome)
      returns (r: Result<TaskId, AdmitError>, ghost atC: State)
      requires Sound(Now())
      modifies this
      ensures Sound(Now()) && Evolves(old(Now()), Now()) && Evolves(old(Now()), atC)
      ensures !MayHandOn(old(Now()), t, user, caller, dest) ==>
                r == Err(HandOnError(old(Now()), t, user, caller, dest)) && Now() == old(Now())
      ensures MayHandOn(old(Now()), t, user, caller, dest) ==>
                && t in atC.rows
                && (r.Ok? <==> ack.Accepted? && !atC.rows[t].state.Terminal()
                               && HopsOf(atC.events, t) == HopsOf(old(events), t))
                && (r.Err? ==> Now() == atC && r.error == DelegationRefusal(ack, atC.rows[t].state))
      ensures r.Ok? ==> r.value == t && t in rows && rows[t] == atC.rows[t].(active := dest)
      ensures r.Ok? ==> HopsOf(events, t) == HopsOf(old(events), t) + [dest]
    {
      // Phase A
      ghost var s0 := Now();
      atC := s0;
      PhaseAExactly(Now(), t, user, caller, dest);
      var phaseA := ValidateHandoff(Now(), t, user, caller, dest);
      if phaseA.Err? { return Err(phaseA.error), s0; }
      var h := phaseA.value;
      // Phase B
      ghost var others := Interleave();
      ghost var s1 := Now();
      PhaseAStands(s0, s1, h);
      atC := s1;
      match ack {
        case Accepted =>
        case Disconnected => return Err(AgentDisconnected), s1;
        case TimedOutWaiting => return Err(AckTimeout), s1;
        case Refusal => return Err(Rejected), s1;
        case Broken => return Err(InternalError), s1;
      }

      // Phase C
      if t !in rows || rows[t].user != user { return Err(TaskUnknown), s1; }
      if rows[t].state.Terminal() { return Err(TaskTerminal), s1; }
      if rows[t].active != caller { return Err(NotActiveExecutor), s1; }
      rows := rows[t := rows[t].(active := dest)];
      events := events + [Delegated(t, caller, dest)];
      PhaseC(s0, s1, Now(), h);
      return Ok(t), s1;
    }

    /** Other requests' transactions run, this request's own record being its own. */
    method InterleaveAround(id: RequestId) returns (ghost steps: seq<Step>)
      requires Sound(Now()) && id in admissions
      modifies this
      ensures Sound(Now()) && Evolves(old(Now()), Now())
      ensures id in admissions && admissions[id] == old(admissions)[id]
    {
      var others: seq<Step> := *;
      if i :| 0 <= i < |others| && Advances(others[i], id) { others := []; }
      RunKeepsSound(Now(), others);
      RunEvolves(Now(), others);
      RunLeavesAlone(Now(), others, id);
      var next := Run(Now(), others);
      rows, events, results, cancels := next.rows, next.events, next.results, next.cancels;
      handoffs, admissions := next.handoffs, next.admissions;
      steps := others;
    }

    method Record(id: RequestId, a: Admission)
      modifies this`admissions
      ensures Now() == Settle(old(Now()), id, a)
    {
      admissions := admissions[id := a];
    }

    /** An idempotency hit, by the first lookup or by the one after a collision. */
    method JoinRow(id: RequestId, spawn: Spawn, t: TaskId)
      requires t in rows
      modifies this
      ensures Now() == Join(old(Now()), id, spawn, t)
    {
      var replay := ReplayOf(rows[t], t, spawn.caller);
      admissions := admissions[id := Returned(spawn, t, replay)];
      if replay.Some? { results := results + [replay.value]; }
    }

    method LookUp(id: RequestId, spawn: Spawn)
      requires id !in admissions
      modifies this
      ensures Now() == Arrive(old(Now()), id, spawn)
    {
      if Looked(spawn) {
        var found := FindIdempotent(Now(), spawn);
        if found.Some? {
          JoinRow(id, spawn, found.value);
          return;
        }
      }
      Record(id, Missed(spawn));
    }

    method MeasureParent(id: RequestId, spawn: Spawn)
      requires id in admissions && admissions[id] == Missed(spawn)
      modifies this
      ensures Now() == Measure(old(Now()), id)
    {
      var depth := 0;
      if spawn.parent.Some? {
        depth := ChainDepth(rows, spawn.user, spawn.parent.value, MAX_TREE);
        if depth >= limits.maxDepth {
          Record(id, Refused(spawn, SpawnDepthExceeded));
          return;
        }
      }
      Record(id, Measured(spawn, depth));
    }

    /** The INSERT transaction; `t` is the generated id, unusable when already taken. */
    method InsertRow(id: RequestId, spawn: Spawn, t: TaskId)
      requires id in admissions && admissions[id].Measured? && admissions[id].spawn == spawn
      modifies this
      ensures Now() == Insert(old(Now()), id, t)
    {
      if spawn.parent.Some? && (spawn.parent.value !in rows || rows[spawn.parent.value].user != spawn.user) {
        Record(id, Refused(spawn, InvalidParentTask));
        return;
      }
      if spawn.key.Some? {
        var winner := FindIdempotent(Now(), spawn);
        if winner.Some? {
          Record(id, Collided(spawn));
          return;
        }
      }
      if !FreshId(Now(), t) { return; }
      rows := rows[t := Row(spawn.user, spawn.parent, spawn.dest, spawn.caller, spawn.dest, spawn.key,
                            |rows|, TaskState.Queued, None, None, None)];
      events := events + [Admitted(t, spawn.caller)];
      admissions := admissions[id := Created(spawn, t)];
    }

    method LookUpWinner(id: RequestId, spawn: Spawn)
      requires id in admissions && admissions[id] == Collided(spawn)
      modifies this
      ensures Now() == Retry(old(Now()), id)
    {
      var racer := FindIdempotent(Now(), spawn);
      if racer.Some? {
        JoinRow(id, spawn, racer.value);
      } else {
        Record(id, Refused(spawn, InternalError));
      }
    }

    /** admit_task for a spawn. `denial` is what the policy checks decide, `t` the id the
        database would generate, `ack` the destination's answer. */
    method AdmitTask(id: RequestId, spawn: Spawn, denial: Option<AdmitError>, t: TaskId, ack: AckOutcome, error: Blob)
      returns (ghost at: State, ghost found: State)
      requires Sound(Now()) && id !in admissions
      modifies this
      ensures Sound(Now()) && Evolves(old(Now()), at) && Evolves(at, found) && Evolves(found, Now())
      ensures id in admissions && (admissions[id].Returned? || admissions[id].Refused?)
      ensures Settled(Now(), admissions[id], spawn)
      ensures if HasEarlier(old(Now()), spawn)
              then Rejoined(old(Now()), Now(), admissions[id], spawn)
                   && admissions[id].task == FindIdempotent(old(Now()), spawn).value
              else AdmissionAnswer(old(Now()), at, found, Now(), admissions[id], spawn, denial, t, ack, error)
    {
      ghost var s0 := Now();
      at, found := s0, s0;
      LookUp(id, spawn);
      if HasEarlier(s0, spawn) { ArriveRejoins(s0, id, spawn); }
      StepKeeps(s0, Now(), SArrive(id, spawn));
      if admissions[id].Missed? {
        ghost var s1 := Now();
        ghost var o1 := InterleaveAround(id);
        ghost var s2 := Now();
        at, found := AdmitNew(id, spawn, denial, t, ack, error);
        EvolvesTrans(s0, s1, s2);
        EvolvesTrans(s0, s2, at);
        AnswerSeenEarlier(s0, s2, at, found, Now(), admissions[id], spawn, denial, t, ack, error);
      }
      SettledNow(Now(), id, spawn);
    }

    /** An admission whose key was not found: the policy checks, then the depth check. */
    method AdmitNew(id: RequestId, spawn: Spawn, denial: Option<AdmitError>, t: TaskId, ack: AckOutcome, error: Blob)
      returns (ghost at: State, ghost found: State)
      requires Sound(Now()) && id in admissions && admissions[id] == Missed(spawn)
      modifies this
      ensures Sound(Now()) && Evolves(old(Now()), at) && Evolves(at, found) && Evolves(found, Now())
      ensures id in admissions && admissions[id].spawn == spawn
      ensures admissions[id].Returned? || admissions[id].Refused?
      ensures AdmissionAnswer(old(Now()), at, found, Now(), admissions[id], spawn, denial, t, ack, error)
    {
      ghost var s0 := Now();
      at, found := s0, s0;
      if denial.Some? {
        Record(id, Refused(spawn, denial.value));
        StepKeeps(s0, Now(), SDeny(id, denial.value));
        return;
      }
      MeasureParent(id, spawn);
      StepKeeps(s0, Now(), SMeasure(id));
      MeasureAnswers(s0, id, spawn);
      if admissions[id].Measured? {
        ghost var s1 := Now();
        at, found := AdmitMeasured(id, spawn, t, ack, error);
        EvolvesTrans(s0, s1, at);
      }
    }

    /** The rest of an admission whose checks have passed; `at` is what the INSERT finds, and
        `found` what the ack, or the second lookup, finds. */
    method AdmitMeasured(id: RequestId, spawn: Spawn, t: TaskId, ack: AckOutcome, error: Blob)
      returns (ghost at: State, ghost found: State)
      requires Sound(Now()) && id in admissions && admissions[id].Measured? && admissions[id].spawn == spawn
      modifies this
      ensures Sound(Now()) && Evolves(old(Now()), at) && Evolves(at, found) && Evolves(found, Now())
      ensures id in admissions && admissions[id].spawn == spawn
      ensures admissions[id].Returned? || admissions[id].Refused?
      ensures InsertAnswer(at, found, Now(), admissions[id], spawn, t, ack, error)
    {
      ghost var o1 := InterleaveAround(id);
      at := Now();
      InsertRow(id, spawn, t);
      StepKeeps(at, Now(), SInsert(id, t));
      ghost var s2 := Now();
      found := s2;
      if admissions[id].Measured? {
        // the generated id was taken: a unique violation of another constraint
        Record(id, Refused(spawn, InternalError));
        StepKeeps(s2, Now(), SDeny(id, InternalError));
      } else if !admissions[id].Refused? {
        found := Finish(id, spawn, ack, error);
      }
      InsertAnswerKnown(at, s2, found, Now(), id, admissions[id], t, ack, error);
      EvolvesTrans(at, s2, found);
    }

    /** After the INSERT: the winner's row is joined, or the new task is dispatched. */
    method Finish(id: RequestId, spawn: Spawn, ack: AckOutcome, error: Blob) returns (ghost found: State)
      requires Sound(Now()) && id in admissions && admissions[id].spawn == spawn
      requires admissions[id].Collided? || admissions[id].Created?
      modifies this
      ensures Sound(Now()) && Evolves(old(Now()), found) && Evolves(found, Now())
      ensures id in admissions && admissions[id].spawn == spawn
      ensures admissions[id].Returned? || admissions[id].Refused?
      ensures old(admissions[id]).Collided? ==> Rejoined(found, Now(), admissions[id], spawn)
      ensures old(admissions[id]).Created? ==> Dispatched(found, Now(), admissions[id], old(admissions[id]), ack, error)
    {
      ghost var o1 := InterleaveAround(id);
      found := Now();
      if admissions[id].Collided? {
        JoinWinner(id, spawn);
      } else {
        Dispatch(id, ack, error);
      }
    }

    method JoinWinner(id: RequestId, spawn: Spawn)
      requires Sound(Now()) && id in admissions && admissions[id] == Collided(spawn)
      modifies this
      ensures Sound(Now()) && Evolves(old(Now()), Now()) && id in admissions
      ensures Rejoined(old(Now()), Now(), admissions[id], spawn)
    {
      ghost var found := Now();
      RetryRejoins(found, id);
      LookUpWinner(id, spawn);
      StepKeeps(found, Now(), SRetry(id));
    }

    method Dispatch(id: RequestId, ack: AckOutcome, error: Blob)
      requires Sound(Now()) && id in admissions && admissions[id].Created?
      modifies this
      ensures Sound(Now()) && Evolves(old(Now()), Now()) && id in admissions
      ensures Dispatched(old(Now()), Now(), admissions[id], old(admissions)[id], ack, error)
    {
      ghost var found := Now();
      AwaitAck(id, ack, error);
      StepKeeps(found, Now(), SAnswer(id, ack, error));
    }

    /** Steps 5 and 6: what the destination's answer does to the new row. */
    method AwaitAck(id: RequestId, ack: AckOutcome, error: Blob)
      requires id in admissions && admissions[id].Created?
      modifies this
      ensures Now() == Answer(old(Now()), id, ack, error)
      ensures var created := old(admissions)[id];
              && admissions == old(admissions)[id := AckAnswer(created.spawn, created.task, ack)]
              && AckTaken(old(Now()), Now().(admissions := old(admissions)), created.task, ack, error)
    {
      AnswerIsTaken(Now(), id, ack, error);
      var spawn, t := admissions[id].spawn, admissions[id].task;
      match ack
      case Accepted =>
        var r := TaskTransition(t, TaskState.Running, ByAck, None, None, None);
        Record(id, Returned(spawn, t, None));
      case Disconnected =>
        var r := FailOwn(t, TaskStatus.Failed, 503, error);
        Record(id, Refused(spawn, AgentDisconnected));
      case TimedOutWaiting =>
        var r := FailOwn(t, TaskStatus.Failed, 504, error);
        Record(id, Refused(spawn, AckTimeout));
      case Refusal =>
        var r := FailOwn(t, TaskStatus.Failed, 400, error);
        Record(id, Refused(spawn, Rejected));
      case Broken =>
        // not caught by the admission code: the row stays as it is
        Record(id, Refused(spawn, InternalError));
    }
  }

  // ------------------------------------------------------------ what an admission answers

  /** The answer once a row was created: by the destination's ack. */
  function AckAnswer(spawn: Spawn, t: TaskId, ack: AckOutcome): Admission {
    match ack
    case Accepted => Returned(spawn, t, None)
    case Disconnected => Refused(spawn, AgentDisconnected)
    case TimedOutWaiting => Refused(spawn, AckTimeout)
    case Refusal => Refused(spawn, Rejected)
    case Broken => Refused(spawn, InternalError)
  }

  /** The dispatch of a created row: the ack decides the answer, and acts on the row as it
      is when the ack comes. */
  predicate Dispatched(found: State, after: State, a: Admission, created: Admission, ack: AckOutcome, error: Blob)
    requires created.Created?
  {
    && a == AckAnswer(created.spawn, created.task, ack)
    && AckTaken(found, after.(admissions := found.admissions), created.task, ack, error)
  }

  /** A non-empty key, and a row that has it. */
  predicate HasEarlier(s: State, spawn: Spawn) {
    spawn.key.Some? && spawn.key.value != "" && FindIdempotent(s, spawn).Some?
  }

  predicate ParentKnown(rows: map<TaskId, Row>, spawn: Spawn) {
    spawn.parent.Some? && spawn.parent.value in rows && rows[spawn.parent.value].user == spawn.user
  }

  /** The answer from the INSERT on, decided by what the INSERT finds: an unknown parent,
      another request's row with the key, a generated id that is taken, or none of these;
      then the row is inserted, and dispatched in the state `found`. */
  ghost predicate InsertAnswer(at: State, found: State, after: State, a: Admission, spawn: Spawn, t: TaskId,
                               ack: AckOutcome, error: Blob) {
    if spawn.parent.Some? && !ParentKnown(at.rows, spawn) then
      a == Refused(spawn, InvalidParentTask) && Untouched(at, after)
    else if FindIdempotent(at, spawn).Some? then
      Rejoined(found, after, a, spawn) && a.task == FindIdempotent(at, spawn).value
    else if !FreshId(at, t) then
      a == Refused(spawn, InternalError) && Untouched(at, after)
    else
      Evolves(WithRow(at, t, spawn), found) && Dispatched(found, after, a, Created(spawn, t), ack, error)
  }

  /** A refusal leaves nothing behind but its answer. */
  predicate Untouched(s: State, s': State) {
    s' == s.(admissions := s'.admissions)
  }

  ghost predicate TooDeep(s: State, spawn: Spawn) {
    Rooted(s.rows) && ParentKnown(s.rows, spawn) && Depth(s.rows, spawn.parent.value) >= s.limits.maxDepth
  }

  /** What a spawn that no earlier row answers is told, and what it leaves behind. A denial
      comes first; a parent that is too deep is refused for that and nothing else is; the
      rest is decided by `at`, the state the INSERT finds. */
  ghost predicate AdmissionAnswer(before: State, at: State, found: State, after: State, a: Admission, spawn: Spawn,
                                  denial: Option<AdmitError>, t: TaskId, ack: AckOutcome, error: Blob) {
    if denial.Some? then
      a == Refused(spawn, denial.value) && Untouched(at, after)
    else
      && (ParentKnown(before.rows, spawn) ==> (a == Refused(spawn, SpawnDepthExceeded) <==> TooDeep(before, spawn)))
      && (if a == Refused(spawn, SpawnDepthExceeded) then TooDeep(at, spawn) && Untouched(at, after)
          else InsertAnswer(at, found, after, a, spawn, t, ack, error))
  }

  lemma MeasureAnswers(s: State, id: RequestId, spawn: Spawn)
    requires Sound(s) && id in s.admissions && s.admissions[id] == Missed(spawn)
    ensures Rooted(s.rows) && Measure(s, id).rows == s.rows
    ensures var a := Measure(s, id).admissions[id];
            && (a.Measured? || a == Refused(spawn, SpawnDepthExceeded))
            && (a.Refused? <==> TooDeep(s, spawn))
  {
    assert Holds(s, Trees);
    if ParentKnown(s.rows, spawn) { ChainDepthExact(s.rows, spawn.parent.value, MAX_TREE); }
  }

  lemma InsertOutcome(s: State, id: RequestId, t: TaskId)
    requires id in s.admissions && s.admissions[id].Measured?
    ensures var spawn, s' := s.admissions[id].spawn, Insert(s, id, t);
            match s'.admissions[id]
            case Created(sp, u) =>
              sp == spawn && u == t && Insertable(s, spawn) && FreshId(s, t)
              && s' == WithRow(s, t, spawn).(admissions := s'.admissions)
            case Refused(sp, e) => sp == spawn && e == InvalidParentTask && spawn.parent.Some? && !ParentKnown(s.rows, spawn)
            case Collided(sp) =>
              sp == spawn && (spawn.parent.None? || ParentKnown(s.rows, spawn)) && FindIdempotent(s, spawn).Some?
            case a => a == s.admissions[id] && Insertable(s, spawn) && !FreshId(s, t)
  {
  }

  predicate Insertable(s: State, spawn: Spawn) {
    (spawn.parent.None? || ParentKnown(s.rows, spawn)) && FindIdempotent(s, spawn).None?
  }

  /** What the INSERT decided in `at` is still the whole answer when the request ends. */
  lemma InsertAnswerKnown(at: State, s: State, found: State, after: State, id: RequestId, a: Admission, t: TaskId,
                          ack: AckOutcome, error: Blob)
    requires id in at.admissions && at.admissions[id].Measured? && s == Insert(at, id, t)
    requires Evolves(at, s) && Evolves(s, found) && Evolves(found, after) && Sound(after)
    requires var spawn := at.admissions[id].spawn;
             match s.admissions[id]
             case Created(_, _) => Dispatched(found, after, a, s.admissions[id], ack, error)
             case Refused(_, _) => a == s.admissions[id] && Untouched(s, after)
             case Collided(_) => Rejoined(found, after, a, spawn)
             case _ => a == Refused(spawn, InternalError) && Untouched(s, after)
    ensures InsertAnswer(at, found, after, a, at.admissions[id].spawn, t, ack, error)
  {
    InsertOutcome(at, id, t);
    if s.admissions[id].Created? {
      assert Evolves(WithRow(at, t, at.admissions[id].spawn), s);
      EvolvesTrans(WithRow(at, t, at.admissions[id].spawn), s, found);
    } else if s.admissions[id].Collided? {
      EvolvesTrans(at, s, found);
      EvolvesTrans(at, found, after);
      WinnerStands(at, after, at.admissions[id].spawn, a.task);
    }
  }

  lemma ArriveRejoins(s: State, id: RequestId, spawn: Spawn)
    requires Sound(s) && id !in s.admissions && HasEarlier(s, spawn)
    ensures var s' := Arrive(s, id, spawn);
            && id in s'.admissions && Rejoined(s, s', s'.admissions[id], spawn)
            && s'.admissions[id].task == FindIdempotent(s, spawn).value
  {
    assert Holds(s, Outcome);
    JoinIsRejoining(s, id, spawn, FindIdempotent(s, spawn).value);
  }

  lemma RetryRejoins(s: State, id: RequestId)
    requires Sound(s) && id in s.admissions && s.admissions[id].Collided?
    ensures var s', spawn := Retry(s, id), s.admissions[id].spawn;
            id in s'.admissions && Rejoined(s, s', s'.admissions[id], spawn)
  {
    assert Holds(s, Outcome) && Holds(s, Keys) && AdmissionOk(s, s.admissions[id]);
    var spawn := s.admissions[id].spawn;
    JoinIsRejoining(s, id, spawn, FindIdempotent(s, spawn).value);
  }

  /** The row a lookup found is the only one with the key ever after. */
  lemma WinnerStands(s: State, s': State, spawn: Spawn, t: TaskId)
    requires Sound(s') && Evolves(s, s') && FindIdempotent(s, spawn).Some?
    requires t in s'.rows && Matches(s'.rows[t], spawn)
    ensures t == FindIdempotent(s, spawn).value
  {
    assert Holds(s', Keys);
    var winner := FindIdempotent(s, spawn).value;
    assert RowEvolves(s.rows[winner], s'.rows[winner]);
    if t != winner { assert SameKey(s'.rows[t], s'.rows[winner]); }
  }

  /** An answer stays right when judged from an earlier state of the run. */
  lemma AnswerSeenEarlier(s0: State, s1: State, at: State, found: State, s2: State, a: Admission, spawn: Spawn,
                          denial: Option<AdmitError>, t: TaskId, ack: AckOutcome, error: Blob)
    requires Sound(s0) && Sound(s1) && Evolves(s0, s1)
    requires AdmissionAnswer(s1, at, found, s2, a, spawn, denial, t, ack, error)
    ensures AdmissionAnswer(s0, at, found, s2, a, spawn, denial, t, ack, error)
  {
    KnownParentStays(s0, s1, spawn);
  }

  lemma KnownParentStays(s0: State, s1: State, spawn: Spawn)
    requires Sound(s0) && Sound(s1) && Evolves(s0, s1)
    ensures Rooted(s0.rows) && Rooted(s1.rows) && s0.limits == s1.limits
    ensures ParentKnown(s0.rows, spawn) ==>
              ParentKnown(s1.rows, spawn) && Depth(s1.rows, spawn.parent.value) == Depth(s0.rows, spawn.parent.value)
  {
    assert Holds(s0, Trees) && Holds(s1, Trees);
    forall u | u in s0.rows ensures u in s1.rows && RowEvolves(s0.rows[u], s1.rows[u]) {}
    if ParentKnown(s0.rows, spawn) { DepthStable(s0.rows, s1.rows, spawn.parent.value); }
  }

  predicate Advances(step: Step, id: RequestId) {
    match step
    case SArrive(i, _) => i == id
    case SMeasure(i) => i == id
    case SDeny(i, _) => i == id
    case SInsert(i, _) => i == id
    case SRetry(i) => i == id
    case SAnswer(i, _, _) => i == id
    case _ => false
  }

  lemma RowStepsAdmitNobody(s: State, step: Step)
    requires step.SResult? || step.SCancel? || step.SFail? || step.SForceFail? || step.SFlip? || step.SAsk? || step.SGiveUp?
    ensures Apply(s, step).admissions == s.admissions
  {
  }

  lemma StepLeavesAlone(s: State, step: Step, id: RequestId)
    requires !Advances(step, id) && id in s.admissions
    ensures id in Apply(s, step).admissions && Apply(s, step).admissions[id] == s.admissions[id]
  {
    if step.SResult? || step.SCancel? || step.SFail? || step.SForceFail? || step.SFlip? || step.SAsk? || step.SGiveUp? {
      RowStepsAdmitNobody(s, step);
    } else if step.SAnswer? && step.id in s.admissions && s.admissions[step.id].Created? {
      var a := AnswerAdmission(s, step.id, step.outcome, step.failure);
    }
  }

  lemma {:induction false} RunLeavesAlone(s: State, steps: seq<Step>, id: RequestId)
    requires id in s.admissions && forall i :: 0 <= i < |steps| ==> !Advances(steps[i], id)
    ensures id in Run(s, steps).admissions && Run(s, steps).admissions[id] == s.admissions[id]
    decreases |steps|
  {
    if steps != [] {
      RunLeavesAlone(s, steps[..|steps| - 1], id);
      StepLeavesAlone(Run(s, steps[..|steps| - 1]), steps[|steps| - 1], id);
    }
  }

  lemma StepKeeps(s: State, s': State, step: Step)
    requires Sound(s) && s' == Apply(s, step)
    ensures Sound(s') && Evolves(s, s')
  {
    StepKeepsSound(s, step);
    StepEvolves(s, step);
  }

  /** What a caller may conclude from a finished admission: the task it was given is the
      one it asked for, no other row carries its key, and a replay tells the truth. */
  ghost predicate Settled(s: State, a: Admission, spawn: Spawn) {
    a.spawn == spawn &&
    (a.Returned? ==>
      && a.task in s.rows && Answers(s.rows[a.task], spawn)
      && (forall t :: t in s.rows && Matches(s.rows[t], spawn) ==> t == a.task)
      && (a.replay.Some? ==>
            && s.rows[a.task].state.Terminal()
            && StateFromStatus(a.replay.value.status) == s.rows[a.task].state
            && a.replay.value.code == ReplayCode(s.rows[a.task], a.replay.value.status)))
  }

  lemma SettledNow(s: State, id: RequestId, spawn: Spawn)
    requires Sound(s) && id in s.admissions && s.admissions[id].spawn == spawn
    ensures Settled(s, s.admissions[id], spawn)
  {
    assert Holds(s, Keys);
    var a := s.admissions[id];
    assert AdmissionOk(s, a);
    if a.Returned? {
      forall t | t in s.rows && Matches(s.rows[t], spawn) ensures t == a.task {
        if t != a.task { assert SameKey(s.rows[t], s.rows[a.task]); }
      }
      if a.replay.Some? { StatusRoundTrip(s.rows[a.task].state, a.replay.value.status); }
    }
  }

  /** One iteration of the row loop: other requests take s0 to s1, the row's own
      transaction takes s1 to s2. */
  lemma SweepStep(before: State, s0: State, s1: State, s2: State, targets: set<TaskId>, todo: set<TaskId>,
                  plan: seq<Planned>, x: TaskId, note: Blob)
    requires Evolves(before, s0) && Evolves(s0, s1) && Sound(s1) && s2 == CancelRow(s1, x, note)
    requires x in todo && todo <= targets
    requires Swept(s0, (targets - todo) * before.rows.Keys, plan)
    requires Distinct(plan) && PlannedTasks(plan) <= targets - todo
    ensures Sound(s2) && Evolves(before, s2)
    ensures Swept(s2, (targets - (todo - {x})) * before.rows.Keys, plan + PlanEntry(s1, x))
    ensures Distinct(plan + PlanEntry(s1, x))
    ensures PlannedTasks(plan + PlanEntry(s1, x)) <= targets - (todo - {x})
  {
    var done := (targets - todo) * before.rows.Keys;
    SweptEvolves(s0, s1, done, plan);
    StepEvolves(s1, SCancel(x, note));
    StepKeepsSound(s1, SCancel(x, note));
    EvolvesTrans(before, s0, s1);
    EvolvesTrans(before, s1, s2);
    SweepExtends(s1, s2, done, plan, x, note);
    assert x in before.rows ==> x in s1.rows;
    SweptSubset(s2, (targets - (todo - {x})) * before.rows.Keys, done + (if x in s1.rows then {x} else {}),
                plan + PlanEntry(s1, x));
    PlanGrows(plan, PlanEntry(s1, x), x);
  }

  lemma FirstStays(plan: seq<Planned>, entry: seq<Planned>, first: TaskId, x: TaskId)
    requires entry == [] || (|entry| == 1 && entry[0].task == x)
    requires first in PlannedTasks(plan) ==> plan[0].task == first
    requires x == first ==> plan == []
    ensures first in PlannedTasks(plan + entry) ==> (plan + entry)[0].task == first
  {
    if p :| p in plan + entry && p.task == first {
      assert p in plan || p in entry;
    }
  }

  lemma PlanGrows(plan: seq<Planned>, entry: seq<Planned>, x: TaskId)
    requires Distinct(plan) && x !in PlannedTasks(plan)
    requires entry == [] || (|entry| == 1 && entry[0].task == x)
    ensures Distinct(plan + entry)
    ensures PlannedTasks(plan + entry) == PlannedTasks(plan) + (if entry == [] then {} else {x})
  {
    var all := plan + entry;
    forall i, j | 0 <= i < j < |all| ensures all[i].task != all[j].task {
      if j >= |plan| && i < |plan| { assert plan[i] in plan; }
    }
    forall p | p in plan ensures p in all {}
    forall p | p in entry ensures p in all {}
    forall p | p in all ensures p in plan || p in entry {}
    if entry != [] { assert entry[0] in all; }
  }

  lemma SweepExtends(s: State, s': State, done: set<TaskId>, plan: seq<Planned>, x: TaskId, note: Blob)
    requires Swept(s, done, plan) && x !in done && s' == CancelRow(s, x, note) && Evolves(s, s')
    requires x !in PlannedTasks(plan) && Distinct(plan)
    ensures Swept(s', done + (if x in s.rows then {x} else {}), plan + PlanEntry(s, x))
  {
    SweptEvolves(s, s', done, plan);
    if x in s.rows { CancelRowSettles(s, x, note); }
    PlanGrows(plan, PlanEntry(s, x), x);
    forall p | p in plan + PlanEntry(s, x) ensures p.task in s'.rows && Targets(p, s'.rows[p.task]) {
      assert p in plan || p in PlanEntry(s, x);
    }
    EntryTold(s, x, note);
    forall p | p in plan + PlanEntry(s, x) ensures Told(s', p) {
      assert p in plan || p in PlanEntry(s, x);
    }
  }

  lemma BatchStep(before: State, s0: State, s1: State, s2: State, done: set<TaskId>, x: TaskId)
    requires Evolves(before, s0) && Evolves(s0, s1) && Evolves(s1, s2) && AllOver(s0, done)
    requires x in before.rows && (x in s2.rows ==> s2.rows[x].state.Terminal())
    ensures Evolves(before, s2) && AllOver(s2, done + {x})
  {
    EvolvesTrans(before, s0, s1);
    EvolvesTrans(before, s1, s2);
    EvolvesTrans(s0, s1, s2);
    assert RowEvolves(before.rows[x], s2.rows[x]);
    forall y | y in done ensures y in s2.rows && s2.rows[y].state.Terminal() {
      assert RowEvolves(s0.rows[y], s2.rows[y]);
    }
  }

  /** A task's turn: found live, it ends with this failure; found over, it stays as it was. */
  ghost predicate InTurn(before: State, after: State, turn: State, x: TaskId, status: TaskStatus, code: int, error: Blob) {
    && Evolves(before, turn) && Evolves(turn, after) && x in turn.rows && x in after.rows
    && if turn.rows[x].state.Terminal() then after.rows[x] == turn.rows[x]
       else FailureStands(turn, after, x, status, code, error)
  }

  ghost predicate EachInTurn(before: State, after: State, turns: map<TaskId, State>, done: set<TaskId>,
                             status: TaskStatus, code: int, error: Blob) {
    forall x :: x in done ==> x in turns && InTurn(before, after, turns[x], x, status, code, error)
  }

  lemma InTurnStays(before: State, s: State, s': State, turn: State, x: TaskId, status: TaskStatus, code: int, error: Blob)
    requires InTurn(before, s, turn, x, status, code, error) && Evolves(s, s') && s.rows[x].state.Terminal()
    ensures InTurn(before, s', turn, x, status, code, error)
  {
    EvolvesTrans(turn, s, s');
    assert RowEvolves(s.rows[x], s'.rows[x]);
  }

  lemma TurnTaken(before: State, s0: State, s1: State, s2: State, turns: map<TaskId, State>, done: set<TaskId>, x: TaskId,
                  status: TaskStatus, code: int, error: Blob)
    requires Evolves(before, s0) && Evolves(s0, s1) && Evolves(s1, s2) && AllOver(s0, done)
    requires EachInTurn(before, s0, turns, done, status, code, error)
    requires x !in done && x in s1.rows
    requires !s1.rows[x].state.Terminal() ==> FailureStands(s1, s2, x, status, code, error)
    ensures EachInTurn(before, s2, turns[x := s1], done + {x}, status, code, error)
  {
    EvolvesTrans(before, s0, s1);
    EvolvesTrans(s0, s1, s2);
    assert RowEvolves(s1.rows[x], s2.rows[x]);
    forall y | y in done ensures InTurn(before, s2, turns[y], y, status, code, error) {
      InTurnStays(before, s0, s2, turns[y], y, status, code, error);
    }
  }

  lemma FailStep(s: State, s': State, t: TaskId, status: TaskStatus, code: int, error: Blob)
    requires Sound(s) && (status == TaskStatus.Failed || status == TaskStatus.TimedOut)
    requires s' == FailRow(s, t, status, code, error)
    ensures Sound(s') && Evolves(s, s')
  {
    StepKeepsSound(s, SFail(t, status == TaskStatus.TimedOut, code, error));
    FailEvolves(s, t, status, code, error);
  }

  /** The failed row: ended now with this code and error, and its parent's original executor
      told of it, or failed that way before. */
  predicate FailureStands(before: State, after: State, t: TaskId, status: TaskStatus, code: int, error: Blob) {
    && t in before.rows && t in after.rows && IsOutcome(after.rows[t].state, status)
    && (if before.rows[t].state.Terminal() then after.rows[t] == before.rows[t]
        else EndedBy(before.rows[t], after.rows[t], status, code, None, Some(error)))
    && var origin := if before.rows[t].state.Terminal() then Repeat else First;
       before.results + UpwardFrame(before, t, status, code, error, origin) <= after.results
  }

  lemma FailureStandsAtOnce(s: State, s': State, t: TaskId, status: TaskStatus, code: int, error: Blob)
    requires FailureTaken(s, s', t, status, code, error) && t in s.rows
    requires !s.rows[t].state.Terminal() || IsOutcome(s.rows[t].state, status)
    ensures FailureStands(s, s', t, status, code, error) && s'.rows[t].state.Terminal()
  {
  }

  lemma FailureStillStands(s: State, s1: State, s2: State, s3: State, t: TaskId, status: TaskStatus, code: int, error: Blob)
    requires FailureStands(s, s1, t, status, code, error) && s1.rows[t].state.Terminal()
    requires Evolves(s1, s2) && Evolves(s2, s3)
    ensures FailureStands(s, s3, t, status, code, error)
  {
    EvolvesTrans(s1, s2, s3);
    assert RowEvolves(s1.rows[t], s3.rows[t]);
  }

  lemma SweptSubset(s: State, small: set<TaskId>, large: set<TaskId>, plan: seq<Planned>)
    requires Swept(s, large, plan) && small <= large
    ensures Swept(s, small, plan)
  {
  }

  lemma FailCascade(s0: State, s1: State, s2: State, s3: State, user: UserId, t: TaskId, plan: seq<Planned>)
    requires Evolves(s0, s1) && Evolves(s1, s2) && Evolves(s2, s3) && Sound(s2)
    requires t in s1.rows && s1.rows[t].state.Terminal()
    requires Sound(s3) && Swept(s3, Descendants(s2.rows, user, t) * s2.rows.Keys, plan)
    ensures Evolves(s0, s3) && t in s3.rows && s3.rows[t] == s1.rows[t]
    ensures Swept(s3, Descendants(s2.rows, user, t), plan)
    ensures Descendants(s0.rows, user, t) <= Descendants(s2.rows, user, t)
    ensures OnlyLateAreLive(s3, s2, user, t)
  {
    EvolvesTrans(s0, s1, s2);
    EvolvesTrans(s0, s2, s3);
    EvolvesTrans(s1, s2, s3);
    assert RowEvolves(s1.rows[t], s3.rows[t]);
    DescendantsGrow(s0, s2, user, t);
    DescendantsAreRows(s2, user, t);
    assert Descendants(s2.rows, user, t) * s2.rows.Keys == Descendants(s2.rows, user, t);
    SweptLeavesOnlyLate(s3, s2, user, t, Descendants(s2.rows, user, t), plan);
  }

  lemma HandoffStaysOk(s: State, s': State, h: Handoff)
    requires HandoffOk(s, h) && Evolves(s, s')
    ensures HandoffOk(s', h)
  {
    assert RowEvolves(s.rows[h.task], s'.rows[h.task]);
    HopsPrefix(s.events, s'.events, h.task);
  }

  lemma PhaseAHolds(s: State, h: Handoff)
    requires DelegationInv(s) && ValidateHandoff(s, h.task, h.user, h.caller, h.dest) == Ok(h)
    ensures HandoffOk(s, h) && HopsOf(s.events, h.task) == h.prior
  {
    assert TrailOk(s, h.task);
    assert [s.rows[h.task].agent] + h.prior == Trail(s, h.task);
  }

  lemma FlipAppends(s: State, h: Handoff)
    requires DelegationInv(s) && HandoffOk(s, h) && FlipHandoff(s, h).Ok?
    ensures HopsOf(FlipHandoff(s, h).value.events, h.task) == h.prior + [h.dest]
  {
    assert TrailOk(s, h.task);
    CallerActiveMeansNothingMoved(s, h);
    HopsAppend(s.events, Delegated(h.task, h.caller, h.dest), h.task);
  }

  /** When Phase C comes, the caller is still active exactly if nothing was handed on. */
  lemma PhaseAStands(s0: State, s1: State, h: Handoff)
    requires Sound(s0) && ValidateHandoff(s0, h.task, h.user, h.caller, h.dest) == Ok(h)
    requires Evolves(s0, s1) && Sound(s1)
    ensures h.task in s1.rows && s1.rows[h.task].user == h.user
    ensures s1.rows[h.task].active == h.caller <==> HopsOf(s1.events, h.task) == HopsOf(s0.events, h.task)
  {
    assert Holds(s0, Trails) && Holds(s1, Trails);
    PhaseAHolds(s0, h);
    HandoffStaysOk(s0, s1, h);
    assert TrailOk(s1, h.task);
    CallerActiveMeansNothingMoved(s1, h);
  }

  /** What Phase A found, other requests ran past, and Phase C may still rely on. */
  lemma PhaseC(s0: State, s1: State, s2: State, h: Handoff)
    requires Sound(s0) && ValidateHandoff(s0, h.task, h.user, h.caller, h.dest) == Ok(h)
    requires Evolves(s0, s1) && Sound(s1) && FlipHandoff(s1, h) == Ok(s2)
    ensures Sound(s2) && Evolves(s0, s2)
    ensures HopsOf(s2.events, h.task) == HopsOf(s0.events, h.task) + [h.dest]
  {
    assert Holds(s0, Trails) && Holds(s1, Trails);
    PhaseAHolds(s0, h);
    HandoffStaysOk(s0, s1, h);
    FlipKeepsSound(s1, h);
    EvolvesTrans(s0, s1, s2);
    FlipAppends(s1, h);
  }

  lemma FlipKeepsSound(s: State, h: Handoff)
    requires Sound(s) && HandoffOk(s, h) && FlipHandoff(s, h).Ok?
    ensures Sound(FlipHandoff(s, h).value) && Evolves(s, FlipHandoff(s, h).value)
  {
    assert Holds(s, Trails) && Holds(s, Trees) && Holds(s, Outcome) && Holds(s, Keys);
    FlipExtendsTrail(s, h);
    FlipKeepsTree(s, h);
    FlipSilent(s, h);
    FlipKeepsKeys(s, h);
    SoundMeans(FlipHandoff(s, h).value);
  }

  lemma FlipKeepsTree(s: State, h: Handoff)
    requires TreeInv(s) && FlipHandoff(s, h).Ok?
    ensures TreeInv(FlipHandoff(s, h).value) && Evolves(s, FlipHandoff(s, h).value)
  {
    PlantedKeepsTree(s, FlipHandoff(s, h).value);
  }

  lemma FlipKeepsKeys(s: State, h: Handoff)
    requires KeysInv(s) && FlipHandoff(s, h).Ok?
    ensures KeysInv(FlipHandoff(s, h).value)
  {
    SameRowsKeepKeys(s, FlipHandoff(s, h).value);
  }

  lemma FlipSilent(s: State, h: Handoff)
    requires OutcomesInv(s) && FlipHandoff(s, h).Ok?
    ensures OutcomesInv(FlipHandoff(s, h).value)
  {
    assert FlipHandoff(s, h).value.events == s.events + [Delegated(h.task, h.caller, h.dest)];
    SilentKeepsOutcomes(s, FlipHandoff(s, h).value);
  }

  /** Admission never looks at the parent's state: under any parent of the same user,
      live or over, a child is created and queued exactly when the parent's depth leaves
      room. A child admitted after a cancel took its snapshot is therefore not covered. */
  lemma AdmissionIgnoresParentState(s: State, p: TaskId, id: RequestId, t: TaskId, caller: AgentId, dest: AgentId)
    requires TreeInv(s) && p in s.rows && id !in s.admissions && t != p && FreshId(s, t)
    ensures var spawn := Spawn(s.rows[p].user, caller, dest, Some(p), None);
            var s' := Run(s, [SArrive(id, spawn), SMeasure(id), SInsert(id, t)]);
            && (t in s'.rows <==> Depth(s.rows, p) < s.limits.maxDepth)
            && (t in s'.rows ==> s'.rows[t].state == TaskState.Queued && s'.rows[t].parent == Some(p))
            && p in s'.rows && s'.rows[p] == s.rows[p]
  {
    var spawn := Spawn(s.rows[p].user, caller, dest, Some(p), None);
    MeasuresUnder(s, p, id, spawn);
    AdmitAlone(s, id, spawn, t, Measure(Arrive(s, id, spawn), id));
    if Depth(s.rows, p) < s.limits.maxDepth {
      InsertChild(s, id, spawn, Depth(s.rows, p), t);
    }
  }

  /** Lookup, depth check and INSERT, one after the other. */
  lemma AdmitAlone(s: State, id: RequestId, spawn: Spawn, t: TaskId, measured: State)
    requires Measure(Arrive(s, id, spawn), id) == measured
    ensures Run(s, [SArrive(id, spawn), SMeasure(id), SInsert(id, t)]) == Insert(measured, id, t)
  {
    RunThree(s, SArrive(id, spawn), SMeasure(id), SInsert(id, t));
  }

  lemma InsertChild(s: State, id: RequestId, spawn: Spawn, depth: nat, t: TaskId)
    requires spawn.parent.Some? && spawn.parent.value in s.rows && s.rows[spawn.parent.value].user == spawn.user
    requires spawn.key.None? && spawn.parent.value != t && id !in s.admissions && FreshId(s, t)
    ensures var s' := Insert(Settle(s, id, Measured(spawn, depth)), id, t);
            && s'.results == s.results
            && s'.rows == s.rows[t := Row(spawn.user, spawn.parent, spawn.dest, spawn.caller, spawn.dest, None, |s.rows|,
                                          TaskState.Queued, None, None, None)]
  {
    assert FreshId(Settle(s, id, Measured(spawn, depth)), t);
  }

  /** The depth check of an admission under an existing parent. */
  lemma MeasuresUnder(s: State, p: TaskId, id: RequestId, spawn: Spawn)
    requires TreeInv(s) && p in s.rows && id !in s.admissions
    requires spawn.parent == Some(p) && spawn.user == s.rows[p].user && spawn.key.None?
    ensures Measure(Arrive(s, id, spawn), id) ==
            Settle(s, id, if Depth(s.rows, p) < s.limits.maxDepth then Measured(spawn, Depth(s.rows, p))
                          else Refused(spawn, SpawnDepthExceeded))
  {
    ChainDepthExact(s.rows, p, MAX_TREE);
    assert Arrive(s, id, spawn) == Settle(s, id, Missed(spawn));
  }

  lemma RunThree(s: State, a: Step, b: Step, c: Step)
    ensures Run(s, [a, b, c]) == Apply(Apply(Apply(s, a), b), c)
  {
    RunSnoc(s, [], a);
    RunSnoc(s, [a], b);
    RunSnoc(s, [a, b], c);
    assert [] + [a] == [a] && [a] + [b] == [a, b] && [a, b] + [c] == [a, b, c];
  }
}
