/** What each transaction of the router does to its row, the log and the planned frames, case
    by case and in terms of the row it finds: the effects the step functions are held to. */
module TaskEffects {
  import opened Options
  import opened TaskStates
  import opened TaskTable
  import opened TaskHistory
  import opened TaskTree
  import opened Outcomes

  /** The state is the outcome the status names. */
  predicate IsOutcome(state: TaskState, status: TaskStatus) {
    match status
    case Succeeded => state == TaskState.Succeeded
    case Failed => state == TaskState.Failed
    case Cancelled => state == TaskState.Cancelled
    case TimedOut => state == TaskState.TimedOut
  }

  /** The live states a status ends: all of them, but a task that waits for its children
      cannot succeed. */
  predicate CanEnd(state: TaskState, status: TaskStatus) {
    match state
    case Queued => true
    case Running => true
    case WaitingChildren => !status.Succeeded?
    case _ => false
  }

  /** The transition table, read by its target: who may start running, wait for children,
      and end with each of the four statuses; nothing goes back to being queued. */
  lemma TableByTarget(from: TaskState, status: TaskStatus)
    ensures IsOutcome(StateFromStatus(status), status)
    ensures StateFromStatus(status) in Allowed(from) <==> CanEnd(from, status)
    ensures TaskState.Running in Allowed(from) <==> from.Queued? || from.WaitingChildren?
    ensures TaskState.WaitingChildren in Allowed(from) <==> from.Running?
    ensures TaskState.Queued !in Allowed(from)
  {
  }

  /** The whole change: row t is now `row`, and the logs are longer by this. */
  predicate Wrote(s: State, s': State, t: TaskId, row: Row, e: Event, frames: seq<ResultFrame>, cancels: seq<CancelFrame>) {
    s' == s.(rows := s.rows[t := row], events := s.events + [e], results := s.results + frames, cancels := s.cancels + cancels)
  }

  predicate Unless(after: Option<Blob>, given: Option<Blob>, before: Option<Blob>) {
    if given.Some? then after == given else after == before
  }

  /** The row ended with this report: state and columns are the report's, and nothing else
      of the row changed. A document the report does not give stays as it was. */
  predicate EndedBy(row: Row, after: Row, status: TaskStatus, code: int, output: Option<Blob>, error: Option<Blob>) {
    && after == row.(state := after.state, statusCode := Some(code), output := after.output, error := after.error)
    && IsOutcome(after.state, status) && Unless(after.output, output, row.output) && Unless(after.error, error, row.error)
  }

  // ------------------------------------------------------------ results

  /** An executor's Result: only the active executor's counts, it ends a live row, and the
      caller is told what was reported. A second report of the same status is told again;
      any other report changes nothing. */
  predicate ReportTaken(s: State, s': State, t: TaskId, reporter: AgentId, status: TaskStatus, code: int,
                        output: Option<Blob>, error: Option<Blob>) {
    if t !in s.rows || reporter != s.rows[t].active then s' == s
    else
      var row := s.rows[t];
      if CanEnd(row.state, status) then
        && t in s'.rows && EndedBy(row, s'.rows[t], status, code, output, error)
        && Wrote(s, s', t, s'.rows[t], Moved(t, s'.rows[t].state, ByResult),
                 [ResultFrame(t, row.caller, status, code, output, error, First)], [])
      else if IsOutcome(row.state, status) then
        Wrote(s, s', t, row, Stayed(t, row.state, ByResult),
              [ResultFrame(t, row.caller, status, code, output, error, Repeat)], [])
      else s' == s
  }

  lemma CompleteIsTaken(s: State, t: TaskId, reporter: AgentId, status: TaskStatus, code: int,
                        output: Option<Blob>, error: Option<Blob>)
    ensures ReportTaken(s, CompleteTask(s, t, reporter, status, code, output, error), t, reporter, status, code, output, error)
  {
    if t in s.rows {
      TableByTarget(s.rows[t].state, status);
      assert s.rows[t := s.rows[t]] == s.rows;
    }
  }

  /** In every run the active executor's report of a status that can end the live task does
      end it: row and caller's frame carry exactly the reported state, code, output and
      error, and keep them however the run goes on. */
  lemma ReportTakesEffect(limits: Limits, past: seq<Step>, future: seq<Step>, t: TaskId, status: TaskStatus, code: int,
                          output: Option<Blob>, error: Option<Blob>)
    requires LegalLimits(limits)
    requires t in Run(Start(limits), past).rows && CanEnd(Run(Start(limits), past).rows[t].state, status)
    ensures var s := Run(Start(limits), past);
            var later := Run(Apply(s, SResult(t, s.rows[t].active, status, code, output, error)), future);
            && t in later.rows && IsOutcome(later.rows[t].state, status)
            && later.rows[t] == s.rows[t].(state := later.rows[t].state, statusCode := Some(code), output := output, error := error)
            && |s.results| < |later.results|
            && later.results[|s.results|] == ResultFrame(t, s.rows[t].caller, status, code, output, error, First)
  {
    var s := Run(Start(limits), past);
    var s' := Apply(s, SResult(t, s.rows[t].active, status, code, output, error));
    OutcomesInEveryRun(limits, past);
    CompleteIsTaken(s, t, s.rows[t].active, status, code, output, error);
    RunEvolves(s', future);
    assert RowEvolves(s'.rows[t], Run(s', future).rows[t]);
    assert s'.results[|s.results|] == Run(s', future).results[|s.results|];
  }

  // ------------------------------------------------------------ cancels and failures

  /** One row's part of a cancel: a live row is cancelled, its caller told with code 499 and
      its executor with a CancelFrame; both are told again for a row already cancelled. */
  predicate CancelTaken(s: State, s': State, t: TaskId, note: Blob) {
    if t !in s.rows then s' == s
    else
      var row := s.rows[t];
      var cancel := CancelFrame(t, row.active);
      if !row.state.Terminal() then
        Wrote(s, s', t, row.(state := TaskState.Cancelled), Moved(t, TaskState.Cancelled, ByCancel),
              [ResultFrame(t, row.caller, TaskStatus.Cancelled, 499, None, Some(note), First)], [cancel])
      else if row.state == TaskState.Cancelled then
        Wrote(s, s', t, row, Stayed(t, TaskState.Cancelled, ByCancel),
              [ResultFrame(t, row.caller, TaskStatus.Cancelled, 499, None, Some(note), Repeat)], [cancel])
      else s' == s
  }

  lemma CancelIsTaken(s: State, t: TaskId, note: Blob)
    ensures CancelTaken(s, CancelRow(s, t, note), t, note)
  {
    if t in s.rows {
      TableByTarget(s.rows[t].state, TaskStatus.Cancelled);
      assert s.rows[t := s.rows[t]] == s.rows;
    }
  }

  function UpwardFrame(s: State, t: TaskId, status: TaskStatus, code: int, error: Blob, origin: Origin): seq<ResultFrame>
    requires t in s.rows
  {
    var parent := s.rows[t].parent;
    if parent.Some? && parent.value in s.rows
    then [ResultFrame(t, s.rows[parent.value].agent, status, code, None, Some(error), origin)] else []
  }

  /** A task's own failure or timeout: a live row gets the state, the code and the error,
      and the parent's original executor is told; a row that is over keeps its outcome. */
  predicate FailureTaken(s: State, s': State, t: TaskId, status: TaskStatus, code: int, error: Blob) {
    if t !in s.rows then s' == s
    else
      var row := s.rows[t];
      if !row.state.Terminal() then
        && t in s'.rows && EndedBy(row, s'.rows[t], status, code, None, Some(error))
        && Wrote(s, s', t, s'.rows[t], Moved(t, s'.rows[t].state, ByFailure), UpwardFrame(s, t, status, code, error, First), [])
      else if IsOutcome(row.state, status) then
        Wrote(s, s', t, row, Stayed(t, row.state, ByFailure), UpwardFrame(s, t, status, code, error, Repeat), [])
      else s' == s
  }

  lemma FailureIsTaken(s: State, t: TaskId, status: TaskStatus, code: int, error: Blob)
    requires status == TaskStatus.Failed || status == TaskStatus.TimedOut
    ensures FailureTaken(s, FailRow(s, t, status, code, error), t, status, code, error)
  {
    if t in s.rows {
      TableByTarget(s.rows[t].state, status);
      assert s.rows[t := s.rows[t]] == s.rows;
      assert s.results + [] == s.results;
    }
  }

  /** The fallback UPDATE: the user's own live row fails, silently; nothing else happens. */
  lemma ForceFailIsTaken(s: State, t: TaskId, user: UserId, code: int, error: Blob)
    ensures var s' := ForceFail(s, t, user, code, error);
            if t in s.rows && s.rows[t].user == user && !s.rows[t].state.Terminal() then
              && s' == s.(rows := s'.rows) && s'.rows == s.rows[t := s'.rows[t]]
              && EndedBy(s.rows[t], s'.rows[t], TaskStatus.Failed, code, None, Some(error))
            else s' == s
  {
  }

  // ------------------------------------------------------------ the destination's answer

  /** What the destination's answer does to the row it finds: acceptance starts a task that
      has not started, a failed dispatch ends a live one, and anything else is left alone. */
  predicate AckTaken(s: State, s': State, t: TaskId, ack: AckOutcome, error: Blob) {
    match ack
    case Accepted =>
      if t !in s.rows || s.rows[t].state.Terminal() then s' == s
      else if s.rows[t].state.Running? then Wrote(s, s', t, s.rows[t], Stayed(t, TaskState.Running, ByAck), [], [])
      else Wrote(s, s', t, s.rows[t].(state := TaskState.Running), Moved(t, TaskState.Running, ByAck), [], [])
    case Disconnected => FailureTaken(s, s', t, TaskStatus.Failed, 503, error)
    case TimedOutWaiting => FailureTaken(s, s', t, TaskStatus.Failed, 504, error)
    case Refusal => FailureTaken(s, s', t, TaskStatus.Failed, 400, error)
    case Broken => s' == s
  }

  lemma AcceptanceIsTaken(s: State, t: TaskId)
    ensures AckTaken(s, AckRow(s, t), t, Accepted, 0)
  {
    if t in s.rows {
      TableByTarget(s.rows[t].state, TaskStatus.Failed);
      assert s.rows[t := s.rows[t]] == s.rows;
      assert s.results + [] == s.results && s.cancels + [] == s.cancels;
    }
  }

  lemma AnswerIsTaken(s: State, id: RequestId, ack: AckOutcome, error: Blob)
    requires id in s.admissions && s.admissions[id].Created?
    ensures var s' := Answer(s, id, ack, error);
            AckTaken(s, s'.(admissions := s.admissions), s.admissions[id].task, ack, error)
  {
    var t := s.admissions[id].task;
    match ack
    case Accepted => AcceptanceIsTaken(s, t); assert Answer(s, id, ack, error).(admissions := s.admissions) == AckRow(s, t);
    case Disconnected => FailedDispatchIsTaken(s, t, 503, error);
    case TimedOutWaiting => FailedDispatchIsTaken(s, t, 504, error);
    case Refusal => FailedDispatchIsTaken(s, t, 400, error);
    case Broken =>
  }

  lemma FailedDispatchIsTaken(s: State, t: TaskId, code: int, error: Blob)
    ensures var s' := FailRow(s, t, TaskStatus.Failed, code, error);
            FailureTaken(s, s', t, TaskStatus.Failed, code, error) && s'.admissions == s.admissions
  {
    FailureIsTaken(s, t, TaskStatus.Failed, code, error);
  }

  // ------------------------------------------------------------ new rows and joined rows

  /** The INSERT: a queued row that its destination executes, and one admission event. */
  function WithRow(s: State, t: TaskId, spawn: Spawn): State {
    s.(rows := s.rows[t := Row(spawn.user, spawn.parent, spawn.dest, spawn.caller, spawn.dest, spawn.key, |s.rows|,
                               TaskState.Queued, None, None, None)],
       events := s.events + [Admitted(t, spawn.caller)])
  }

  /** A replay tells what the row says; a row without a code was cancelled by the router. */
  predicate Tells(f: ResultFrame, t: TaskId, row: Row, to: AgentId) {
    && f.task == t && f.to == to && f.origin == Replay && IsOutcome(row.state, f.status)
    && f.code == (if row.statusCode.Some? then row.statusCode.value else 499)
    && f.output == row.output && f.error == row.error
  }

  /** The caller was given an existing row with its own user, caller and key, and a replay
      of its outcome exactly if it is over; the tables are as they were. */
  predicate Rejoined(s: State, s': State, a: Admission, spawn: Spawn) {
    && a.Returned? && a.spawn == spawn && a.task in s.rows
    && s.rows[a.task].user == spawn.user && s.rows[a.task].caller == spawn.caller
    && spawn.key.Some? && s.rows[a.task].key == spawn.key
    && (a.replay.Some? <==> s.rows[a.task].state.Terminal())
    && (a.replay.Some? ==> Tells(a.replay.value, a.task, s.rows[a.task], spawn.caller))
    && s'.rows == s.rows && s'.events == s.events && s'.cancels == s.cancels
    && s'.results == s.results + (if a.replay.Some? then [a.replay.value] else [])
  }

  lemma JoinIsRejoining(s: State, id: RequestId, spawn: Spawn, t: TaskId)
    requires t in s.rows && Matches(s.rows[t], spawn) && ColumnsOk(s.rows[t])
    ensures id in Join(s, id, spawn, t).admissions
    ensures Rejoined(s, Join(s, id, spawn, t), Join(s, id, spawn, t).admissions[id], spawn)
    ensures Join(s, id, spawn, t).admissions[id].task == t
  {
    var replay := ReplayOf(s.rows[t], t, spawn.caller);
    if replay.None? { assert s.results + [] == s.results; }
  }
}
