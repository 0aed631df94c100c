/** The static task state machine (bp_router/state.py) and the maps between a
    task's state and the status carried by its Result frames. */
module TaskStates {
  import opened Options

  datatype TaskState =
    | Queued | Running | WaitingChildren
    | Succeeded | Failed | Cancelled | TimedOut
  {
    predicate Terminal() {
      Succeeded? || Failed? || Cancelled? || TimedOut?
    }
  }

  datatype TaskStatus = Succeeded | Failed | Cancelled | TimedOut

  /** The transition table. */
  function Allowed(from: TaskState): set<TaskState> {
    match from
    case Queued =>
      {TaskState.Running, TaskState.Succeeded, TaskState.Failed, TaskState.Cancelled, TaskState.TimedOut}
    case Running =>
      {TaskState.WaitingChildren, TaskState.Succeeded, TaskState.Failed, TaskState.Cancelled, TaskState.TimedOut}
    case WaitingChildren =>
      {TaskState.Running, TaskState.Failed, TaskState.Cancelled, TaskState.TimedOut}
    case _ => {}
  }

  function StateFromStatus(status: TaskStatus): TaskState {
    match status
    case Succeeded => TaskState.Succeeded
    case Failed => TaskState.Failed
    case Cancelled => TaskState.Cancelled
    case TimedOut => TaskState.TimedOut
  }

  /** None for a state with no terminal Result to replay. */
  function StatusFromState(state: TaskState): Option<TaskStatus> {
    match state
    case Succeeded => Some(TaskStatus.Succeeded)
    case Failed => Some(TaskStatus.Failed)
    case Cancelled => Some(TaskStatus.Cancelled)
    case TimedOut => Some(TaskStatus.TimedOut)
    case _ => None
  }

  /** The code a replay carries when the stored column is NULL. */
  function DefaultCode(status: TaskStatus): int {
    match status
    case Succeeded => 200
    case Failed => 500
    case Cancelled => 499
    case TimedOut => 504
  }

  /** States reachable by any number of table transitions. */
  ghost predicate Reachable(path: seq<TaskState>) {
    |path| > 0 && forall i :: 0 < i < |path| ==> path[i] in Allowed(path[i - 1])
  }

  /** A path through the table meets at most one terminal state, and only as its
      last state: no sequence of transitions leaves, or passes through, an outcome. */
  lemma TerminalOnlyLast(path: seq<TaskState>, i: nat)
    requires Reachable(path) && i < |path|
    ensures path[i].Terminal() ==> i == |path| - 1
  {
    if i + 1 < |path| {
      assert path[i + 1] in Allowed(path[i]);
    }
  }

  /** Every non-terminal state can be cancelled, failed and timed out, so the three
      router-initiated endings never meet an illegal transition on a live task. */
  lemma LiveTasksCanAlwaysBeEnded(state: TaskState)
    ensures !state.Terminal() <==>
            {TaskState.Cancelled, TaskState.Failed, TaskState.TimedOut} <= Allowed(state)
  {
    assert TaskState.Cancelled in {TaskState.Cancelled, TaskState.Failed, TaskState.TimedOut};
  }

  /** Status and state are two names of one outcome. */
  lemma StatusRoundTrip(state: TaskState, status: TaskStatus)
    ensures StatusFromState(StateFromStatus(status)) == Some(status)
    ensures StateFromStatus(status).Terminal()
    ensures StatusFromState(state).Some? <==> state.Terminal()
    ensures StatusFromState(state) == Some(status) ==> StateFromStatus(status) == state
  {
  }
}
