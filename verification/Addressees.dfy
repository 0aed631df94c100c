/** Whom Result frames are addressed to. A result, a cancel and a replay go to the task's
    caller; a failure goes to the parent row's original executor, which is not the caller
    when a delegate spawned the task (bp_router/tasks.py). */
module Addressees {
  import opened Options
  import opened TaskStates
  import opened TaskTable
  import opened TaskHistory
  import opened TaskTree
  import opened Delegation
  import opened Outcomes
  import opened Idempotency
  import opened Disconnects
  import R = RouterTasks

  /** To the caller that waits, or a failure to the parent's original executor. */
  predicate Addressed(rows: map<TaskId, Row>, f: ResultFrame) {
    && f.task in rows
    && (f.to == rows[f.task].caller || ToParentsAgent(rows, f))
  }

  predicate ToParentsAgent(rows: map<TaskId, Row>, f: ResultFrame)
    requires f.task in rows
  {
    var parent := rows[f.task].parent;
    && (f.status == TaskStatus.Failed || f.status == TaskStatus.TimedOut) && f.origin != Replay
    && parent.Some? && parent.value in rows && f.to == rows[parent.value].agent
  }

  ghost predicate AllAddressed(s: State) {
    forall i :: 0 <= i < |s.results| ==> Addressed(s.rows, s.results[i])
  }

  lemma AddressedStays(s: State, s': State, f: ResultFrame)
    requires Evolves(s, s') && Addressed(s.rows, f)
    ensures Addressed(s'.rows, f)
  {
    assert RowEvolves(s.rows[f.task], s'.rows[f.task]);
    var parent := s.rows[f.task].parent;
    if parent.Some? && parent.value in s.rows {
      assert RowEvolves(s.rows[parent.value], s'.rows[parent.value]);
    }
  }

  /** A step plans at most one frame. */
  ghost predicate OneMore(s: State, s': State) {
    s'.results == s.results
    || (|s'.results| == |s.results| + 1 && s'.results[..|s.results|] == s.results
        && Addressed(s'.rows, s'.results[|s.results|]))
  }

  lemma FailAddresses(s: State, t: TaskId, status: TaskStatus, code: int, error: Blob)
    requires status == TaskStatus.Failed || status == TaskStatus.TimedOut
    ensures OneMore(s, FailRow(s, t, status, code, error))
  {
  }

  lemma JoinAddresses(s: State, id: RequestId, spawn: Spawn, t: TaskId)
    requires t in s.rows && Matches(s.rows[t], spawn)
    ensures OneMore(s, Join(s, id, spawn, t))
  {
  }

  lemma ArriveAddresses(s: State, id: RequestId, spawn: Spawn)
    ensures OneMore(s, Arrive(s, id, spawn))
  {
    if Looked(spawn) && FindIdempotent(s, spawn).Some? {
      JoinAddresses(s, id, spawn, FindIdempotent(s, spawn).value);
    }
  }

  lemma RetryAddresses(s: State, id: RequestId)
    ensures OneMore(s, Retry(s, id))
  {
    if id in s.admissions && s.admissions[id].Collided? && FindIdempotent(s, s.admissions[id].spawn).Some? {
      JoinAddresses(s, id, s.admissions[id].spawn, FindIdempotent(s, s.admissions[id].spawn).value);
    }
  }

  lemma AnswerAddresses(s: State, id: RequestId, outcome: AckOutcome, error: Blob)
    ensures OneMore(s, Answer(s, id, outcome, error))
  {
    if id in s.admissions && s.admissions[id].Created? {
      var t := s.admissions[id].task;
      match outcome
      case Disconnected => FailAddresses(s, t, TaskStatus.Failed, 503, error);
      case TimedOutWaiting => FailAddresses(s, t, TaskStatus.Failed, 504, error);
      case Refusal => FailAddresses(s, t, TaskStatus.Failed, 400, error);
      case _ =>
    }
  }

  lemma StepAddresses(s: State, step: Step)
    ensures OneMore(s, Apply(s, step))
  {
    match step
    case SFail(t, timedOut, code, failure) => FailAddresses(s, t, FailureStatus(timedOut), code, failure);
    case SArrive(id, spawn) => ArriveAddresses(s, id, spawn);
    case SRetry(id) => RetryAddresses(s, id);
    case SAnswer(id, outcome, failure) => AnswerAddresses(s, id, outcome, failure);
    case _ =>
  }

  /** In every run each Result frame is addressed to its task's caller, or is a failure or
      timeout addressed to the parent's original executor. */
  lemma {:induction false} EveryFrameAddressed(limits: Limits, steps: seq<Step>)
    ensures AllAddressed(Run(Start(limits), steps))
    decreases |steps|
  {
    if steps != [] {
      var s, last := Run(Start(limits), steps[..|steps| - 1]), steps[|steps| - 1];
      EveryFrameAddressed(limits, steps[..|steps| - 1]);
      StepAddresses(s, last);
      StepEvolves(s, last);
      OneMoreKeeps(s, Apply(s, last));
    }
  }

  lemma OneMoreKeeps(s: State, s': State)
    requires AllAddressed(s) && OneMore(s, s') && Evolves(s, s')
    ensures AllAddressed(s')
  {
    forall i | 0 <= i < |s'.results| ensures Addressed(s'.rows, s'.results[i]) {
      if i < |s.results| {
        assert s'.results[i] == s.results[i];
        AddressedStays(s, s', s.results[i]);
      }
    }
  }

  /** Some frame for t that this step planned goes to its caller. */
  ghost predicate Reaches(s: State, after: State, t: TaskId)
    requires t in s.rows
  {
    exists i :: |s.results| <= i < |after.results| && after.results[i].task == t && after.results[i].to == s.rows[t].caller
  }

  /** When a failure reaches the caller that waits for it: in every reachable state, exactly
      when the live task has a parent that was first given to the caller. A root task's
      failure plans nothing; any other plans one frame. */
  lemma FailureReachesCallerExactlyWhen(limits: Limits, steps: seq<Step>, t: TaskId, status: TaskStatus, code: int, error: Blob)
    requires LegalLimits(limits) && (status == TaskStatus.Failed || status == TaskStatus.TimedOut)
    requires var s := Run(Start(limits), steps); t in s.rows && !s.rows[t].state.Terminal()
    ensures var s := Run(Start(limits), steps);
            var after, parent := FailRow(s, t, status, code, error), s.rows[t].parent;
            && (parent.Some? ==> parent.value in s.rows)
            && (Reaches(s, after, t) <==> parent.Some? && s.rows[parent.value].agent == s.rows[t].caller)
            && (parent.None? ==> after.results == s.results)
            && (parent.Some? ==> |after.results| == |s.results| + 1)
  {
    var s := Run(Start(limits), steps);
    TreeInEveryRun(limits, steps);
    assert ParentOk(s.rows, t);
    LiveTasksCanAlwaysBeEnded(s.rows[t].state);
    var after, parent := FailRow(s, t, status, code, error), s.rows[t].parent;
    if parent.Some? {
      var f := after.results[|s.results|];
      assert f.task == t && f.to == s.rows[parent.value].agent;
    }
  }

  /** A run: agent 11 hands task 100 to agent 12, which spawns task 101. When 101 fails,
      its Result goes to agent 11, and no frame goes to agent 12 that waits for it. */
  lemma DelegateHearsNothing(error: Blob) returns (steps: seq<Step>)
    ensures var s := Run(Start(Limits(1, 2)), steps);
            && 101 in s.rows && s.rows[101].state == TaskState.Failed && s.rows[101].caller == 12
            && |s.results| == 1 && s.results[0].task == 101 && s.results[0].to == 11
  {
    var limits, admit := Limits(1, 2), [SArrive(0, Spawn(1, 10, 11, None, None)), SMeasure(0), SInsert(0, 100)];
    var handOver := [SAsk(0, 100, 1, 11, 12), SFlip(0)];
    var spawn := [SArrive(1, Spawn(1, 12, 13, Some(100), None)), SMeasure(1), SInsert(1, 101)];
    var start := Start(limits);
    OneTaskAdmitted(limits, admit);
    var s1 := Run(start, admit);
    assert HopsOf(s1.events, 100) == [] by { HopsAppend([], Admitted(100, 10), 100); assert [] + [Admitted(100, 10)] == s1.events; }
    HandOver(s1, 0, 100, 12);
    RunConcat(start, admit, handOver);
    var s2 := Run(start, admit + handOver);
    TreeInEveryRun(limits, admit + handOver);
    assert s2.rows[100].parent.None? && Depth(s2.rows, 100) == 1 by { assert ParentOk(s2.rows, 100); }
    var child := Spawn(1, 12, 13, Some(100), None);
    R.MeasuresUnder(s2, 100, 1, child);
    R.AdmitAlone(s2, 1, child, 101, Settle(s2, 1, Measured(child, 1)));
    R.InsertChild(s2, 1, child, 1, 101);
    RunConcat(start, admit + handOver, spawn);
    var s3 := Run(start, admit + handOver + spawn);
    steps := admit + handOver + spawn + [SFail(101, false, 500, error)];
    RunSnoc(start, admit + handOver + spawn, SFail(101, false, 500, error));
    assert s3.rows[101].state == TaskState.Queued && s3.rows[100].agent == 11 && s3.results == [];
  }
}
