/** What no step of the router ever undoes: rows are never dropped, their identity
    columns never change, and a terminal row never changes at all. */
module TaskHistory {
  import opened Options
  import opened TaskStates
  import opened TaskTable

  /** How a row may differ from its own past. */
  predicate RowEvolves(before: Row, after: Row) {
    && after.user == before.user && after.parent == before.parent && after.agent == before.agent
    && after.caller == before.caller && after.key == before.key && after.born == before.born
    && (before.state.Terminal() ==> after == before)
  }

  ghost predicate Evolves(s: State, s': State) {
    && s'.limits == s.limits
    && (forall t :: t in s.rows ==> t in s'.rows && RowEvolves(s.rows[t], s'.rows[t]))
    && s.events <= s'.events
    && s.results <= s'.results
    && s.cancels <= s'.cancels
  }

  lemma TransitionEvolves(s: State, t: TaskId, to: TaskState, cause: Cause,
                          code: Option<int>, output: Option<Blob>, error: Option<Blob>)
    ensures var r := Transition(s, t, to, cause, code, output, error);
            r.Ok? ==> Evolves(s, r.value)
  {
  }

  lemma CompleteEvolves(s: State, t: TaskId, reporter: AgentId, status: TaskStatus, code: int,
                        output: Option<Blob>, error: Option<Blob>)
    ensures Evolves(s, CompleteTask(s, t, reporter, status, code, output, error))
  {
    TransitionEvolves(s, t, StateFromStatus(status), ByResult, Some(code), output, error);
  }

  lemma CancelEvolves(s: State, t: TaskId, note: Blob)
    ensures Evolves(s, CancelRow(s, t, note))
  {
    TransitionEvolves(s, t, TaskState.Cancelled, ByCancel, None, None, None);
  }

  lemma FailEvolves(s: State, t: TaskId, status: TaskStatus, code: int, error: Blob)
    requires status == TaskStatus.Failed || status == TaskStatus.TimedOut
    ensures Evolves(s, FailRow(s, t, status, code, error))
  {
    TransitionEvolves(s, t, StateFromStatus(status), ByFailure, Some(code), None, Some(error));
  }

  lemma AnswerEvolves(s: State, id: RequestId, outcome: AckOutcome, error: Blob)
    ensures Evolves(s, Answer(s, id, outcome, error))
  {
    if id in s.admissions && s.admissions[id].Created? {
      var t := s.admissions[id].task;
      match outcome
      case Accepted => TransitionEvolves(s, t, TaskState.Running, ByAck, None, None, None);
      case Disconnected => FailEvolves(s, t, TaskStatus.Failed, 503, error);
      case TimedOutWaiting => FailEvolves(s, t, TaskStatus.Failed, 504, error);
      case Refusal => FailEvolves(s, t, TaskStatus.Failed, 400, error);
      case Broken =>
    }
  }

  lemma InsertEvolves(s: State, id: RequestId, t: TaskId)
    ensures Evolves(s, Insert(s, id, t))
  {
  }

  lemma ArriveEvolves(s: State, id: RequestId, spawn: Spawn)
    ensures Evolves(s, Arrive(s, id, spawn))
  {
  }

  lemma RetryEvolves(s: State, id: RequestId)
    ensures Evolves(s, Retry(s, id))
  {
  }

  lemma FlipEvolves(s: State, id: RequestId)
    ensures Evolves(s, Flip(s, id))
  {
  }

  lemma StepEvolves(s: State, step: Step)
    ensures Evolves(s, Apply(s, step))
  {
    match step
    case SResult(t, reporter, status, code, output, error) => CompleteEvolves(s, t, reporter, status, code, output, error);
    case SCancel(t, note) => CancelEvolves(s, t, note);
    case SFail(t, timedOut, code, failure) => FailEvolves(s, t, FailureStatus(timedOut), code, failure);
    case SForceFail(_, _, _, _) =>
    case SAsk(_, _, _, _, _) =>
    case SFlip(id) => FlipEvolves(s, id);
    case SGiveUp(_) =>
    case SArrive(id, spawn) => ArriveEvolves(s, id, spawn);
    case SMeasure(_) =>
    case SDeny(_, _) =>
    case SInsert(id, t) => InsertEvolves(s, id, t);
    case SRetry(id) => RetryEvolves(s, id);
    case SAnswer(id, outcome, failure) => AnswerEvolves(s, id, outcome, failure);
  }

  lemma EvolvesTrans(a: State, b: State, c: State)
    requires Evolves(a, b) && Evolves(b, c)
    ensures Evolves(a, c)
  {
    forall t | t in a.rows
      ensures t in c.rows && RowEvolves(a.rows[t], c.rows[t])
    {
      assert t in b.rows && RowEvolves(a.rows[t], b.rows[t]);
    }
  }

  /** In every run, from any state: a terminal row stays exactly as it is (state,
      outcome and executor), no row disappears, and the event and frame logs only grow. */
  lemma {:induction false} RunEvolves(s: State, steps: seq<Step>)
    ensures Evolves(s, Run(s, steps))
    decreases |steps|
  {
    if steps != [] {
      var init := steps[..|steps| - 1];
      RunEvolves(s, init);
      StepEvolves(Run(s, init), steps[|steps| - 1]);
      EvolvesTrans(s, Run(s, init), Run(s, steps));
    }
  }

  /** A planned CancelFrame is addressed to the executor of a cancelled task. */
  predicate CancelFrameOk(s: State, f: CancelFrame) {
    f.task in s.rows && s.rows[f.task].state == TaskState.Cancelled && f.to == s.rows[f.task].active
  }

  lemma StepPlansCancels(s: State, step: Step)
    ensures var s' := Apply(s, step);
            s'.cancels == s.cancels
            || (|s'.cancels| == |s.cancels| + 1 && CancelFrameOk(s', s'.cancels[|s.cancels|]))
  {
  }

  ghost predicate CancelFramesOk(s: State) {
    forall i :: 0 <= i < |s.cancels| ==> CancelFrameOk(s, s.cancels[i])
  }

  lemma CancelFramesKept(s: State, s': State)
    requires CancelFramesOk(s) && Evolves(s, s')
    requires s'.cancels == s.cancels
             || (|s'.cancels| == |s.cancels| + 1 && CancelFrameOk(s', s'.cancels[|s.cancels|]))
    ensures CancelFramesOk(s')
  {
    forall i | 0 <= i < |s'.cancels| ensures CancelFrameOk(s', s'.cancels[i]) {
      if i < |s.cancels| {
        assert CancelFrameOk(s, s.cancels[i]) && s'.cancels[i] == s.cancels[i];
        assert RowEvolves(s.rows[s.cancels[i].task], s'.rows[s.cancels[i].task]);
      }
    }
  }

  /** In every run, at every moment, all CancelFrames planned so far name the agent that
      is the task's executor: a hand-off can neither precede the cancel unnoticed nor
      follow it. */
  lemma {:induction false} CancelFramesInEveryRun(limits: Limits, steps: seq<Step>)
    ensures CancelFramesOk(Run(Start(limits), steps))
    decreases |steps|
  {
    if steps != [] {
      var init, step := steps[..|steps| - 1], steps[|steps| - 1];
      CancelFramesInEveryRun(limits, init);
      StepPlansCancels(Run(Start(limits), init), step);
      StepEvolves(Run(Start(limits), init), step);
      CancelFramesKept(Run(Start(limits), init), Run(Start(limits), steps));
    }
  }
}
