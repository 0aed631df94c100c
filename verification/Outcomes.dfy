/** One outcome per task: what the event log and the planned Result frames say about a
    terminal row, under every interleaving of results, cancels, failures, acks and
    idempotent replays. */
module Outcomes {
  import opened Options
  import opened TaskStates
  import opened TaskTable
  import opened TaskHistory
  import opened TaskTree

  /** An event that ends task t: a real move (or a no-op) into a terminal state. With
      `root` set, fail_task's events are left out: it tells nobody about a root task. */
  predicate Ends(e: Event, t: TaskId, root: bool, moved: bool) {
    (if moved then e.Moved? else e.Stayed?) && e.task == t && e.to.Terminal()
    && !(root && e.cause == ByFailure)
  }

  function CountEnds(events: seq<Event>, t: TaskId, root: bool, moved: bool): nat {
    if events == [] then 0
    else CountEnds(events[..|events| - 1], t, root, moved)
         + (if Ends(events[|events| - 1], t, root, moved) then 1 else 0)
  }

  function CountFrames(frames: seq<ResultFrame>, t: TaskId, origin: Origin): nat {
    if frames == [] then 0
    else CountFrames(frames[..|frames| - 1], t, origin)
         + (if frames[|frames| - 1].task == t && frames[|frames| - 1].origin == origin then 1 else 0)
  }

  /** The admissions that were answered with a replay of t's outcome. */
  function ReplaysOf(admissions: map<RequestId, Admission>, t: TaskId): set<RequestId> {
    set id | id in admissions && admissions[id].Returned? && admissions[id].task == t
             && admissions[id].replay.Some?
  }

  predicate IsRoot(row: Row) { row.parent.None? }

  /** A live row has no outcome columns; a terminal row without a code was cancelled by
      the router and carries no documents either. */
  predicate ColumnsOk(row: Row) {
    && (!row.state.Terminal() ==> row.statusCode.None? && row.output.None? && row.error.None?)
    && (row.state.Terminal() && row.statusCode.None? ==>
          row.state == TaskState.Cancelled && row.output.None? && row.error.None?)
  }

  /** The conservation law for one task: a frame for each announced ending, by origin. */
  ghost predicate Ledger(s: State, t: TaskId)
    requires t in s.rows
  {
    var row := s.rows[t];
    && CountFrames(s.results, t, First) == CountEnds(s.events, t, IsRoot(row), true)
    && CountFrames(s.results, t, Repeat) == CountEnds(s.events, t, IsRoot(row), false)
    && CountFrames(s.results, t, Replay) == |ReplaysOf(s.admissions, t)|
    && CountEnds(s.events, t, false, true) <= 1
    && (!row.state.Terminal() ==> CountEnds(s.events, t, false, true) == 0 == CountEnds(s.events, t, false, false))
  }

  ghost predicate NoTrace(s: State, t: TaskId) {
    && (forall origin :: CountFrames(s.results, t, origin) == 0)
    && (forall root, moved :: CountEnds(s.events, t, root, moved) == 0)
    && ReplaysOf(s.admissions, t) == {}
  }

  /** What a frame says about the row it is for. Every frame names the row's outcome. The
      first announcement and every replay also agree on code and output; they agree on the
      error document unless the router cancelled the task (no stored code), when the
      announcement carries a cancellation notice that is stored nowhere. */
  predicate FrameOk(row: Row, f: ResultFrame) {
    && row.state.Terminal()
    && StateFromStatus(f.status) == row.state
    && (f.origin != Repeat ==> f.code == ReplayCode(row, f.status) && f.output == row.output)
    && (f.origin == Replay ==> f.error == row.error)
    && (f.origin == First ==> (f.error == row.error <==> row.statusCode.Some?))
  }

  ghost predicate OutcomesInv(s: State) {
    && (forall t :: t in s.rows ==> ColumnsOk(s.rows[t]) && Ledger(s, t))
    && (forall t :: t !in s.rows ==> NoTrace(s, t))
    && (forall i :: 0 <= i < |s.results| ==>
          s.results[i].task in s.rows && FrameOk(s.rows[s.results[i].task], s.results[i]))
    && (forall id :: id in s.admissions && (s.admissions[id].Created? || s.admissions[id].Returned?) ==>
          s.admissions[id].task in s.rows)
  }

  lemma EndsAppend(events: seq<Event>, e: Event, t: TaskId, root: bool, moved: bool)
    ensures CountEnds(events + [e], t, root, moved) ==
            CountEnds(events, t, root, moved) + (if Ends(e, t, root, moved) then 1 else 0)
  {
    assert (events + [e])[..|events|] == events;
  }

  lemma FramesAppend(frames: seq<ResultFrame>, f: ResultFrame, t: TaskId, origin: Origin)
    ensures CountFrames(frames + [f], t, origin) ==
            CountFrames(frames, t, origin) + (if f.task == t && f.origin == origin then 1 else 0)
  {
    assert (frames + [f])[..|frames|] == frames;
  }

  /** Leaving a root task's failures out of the count never adds to it. */
  lemma EndsAtMost(events: seq<Event>, t: TaskId, root: bool, moved: bool)
    ensures CountEnds(events, t, root, moved) <= CountEnds(events, t, false, moved)
  {
  }

  /** How one transaction on an existing task changes the logs: it writes the row by
      task_transition, logs one event, and plans `frames`, either none or one. */
  ghost predicate Logged(s: State, s': State, t: TaskId, e: Event, frames: seq<ResultFrame>) {
    && t in s.rows && s'.rows.Keys == s.rows.Keys
    && (forall u :: u in s.rows && u != t ==> s'.rows[u] == s.rows[u])
    && s'.rows[t].parent == s.rows[t].parent
    && s'.events == s.events + [e]
    && s'.results == s.results + frames
    && s'.admissions == s.admissions
  }

  /** The event matches what the transaction did to the row, and a frame is planned
      exactly when the event is an announced ending. */
  ghost predicate Announced(s: State, s': State, t: TaskId, e: Event, frames: seq<ResultFrame>)
    requires Logged(s, s', t, e, frames)
  {
    && e.task == t && (e.Moved? || e.Stayed?) && e.to == s'.rows[t].state
    && (e.Moved? ==> !s.rows[t].state.Terminal())
    && (e.Stayed? ==> s'.rows[t] == s.rows[t])
    && ColumnsOk(s'.rows[t])
    && if Ends(e, t, IsRoot(s.rows[t]), true) || Ends(e, t, IsRoot(s.rows[t]), false)
       then |frames| == 1 && frames[0].task == t
            && frames[0].origin == (if e.Moved? then First else Repeat) && FrameOk(s'.rows[t], frames[0])
       else frames == []
  }

  lemma LoggedCounts(s: State, s': State, t: TaskId, e: Event, frames: seq<ResultFrame>, u: TaskId)
    requires s'.events == s.events + [e] && s'.results == s.results + frames
    requires frames == [] || (|frames| == 1 && frames[0].task == t)
    ensures forall root, moved :: CountEnds(s'.events, u, root, moved) == CountEnds(s.events, u, root, moved) + (if Ends(e, u, root, moved) then 1 else 0)
    ensures forall origin :: CountFrames(s'.results, u, origin) == CountFrames(s.results, u, origin) + (if frames != [] && t == u && frames[0].origin == origin then 1 else 0)
  {
    forall root, moved
      ensures CountEnds(s'.events, u, root, moved) == CountEnds(s.events, u, root, moved) + (if Ends(e, u, root, moved) then 1 else 0)
    {
      EndsAppend(s.events, e, u, root, moved);
    }
    forall origin
      ensures CountFrames(s'.results, u, origin) == CountFrames(s.results, u, origin) + (if frames != [] && t == u && frames[0].origin == origin then 1 else 0)
    {
      if frames != [] {
        assert frames == [frames[0]];
        FramesAppend(s.results, frames[0], u, origin);
      } else {
        assert s'.results == s.results;
      }
    }
  }

  lemma LoggedLedger(s: State, s': State, t: TaskId, e: Event, frames: seq<ResultFrame>, u: TaskId)
    requires Logged(s, s', t, e, frames) && Announced(s, s', t, e, frames)
    requires u in s.rows && Ledger(s, u)
    ensures Ledger(s', u)
  {
    LoggedCounts(s, s', t, e, frames, u);
  }

  lemma LoggedNoTrace(s: State, s': State, t: TaskId, e: Event, frames: seq<ResultFrame>, u: TaskId)
    requires Logged(s, s', t, e, frames) && Announced(s, s', t, e, frames)
    requires u !in s.rows && NoTrace(s, u)
    ensures NoTrace(s', u)
  {
    LoggedCounts(s, s', t, e, frames, u);
  }

  lemma LoggedFrame(s: State, s': State, t: TaskId, e: Event, frames: seq<ResultFrame>, i: nat)
    requires Logged(s, s', t, e, frames) && Announced(s, s', t, e, frames) && i < |s'.results|
    requires i < |s.results| ==> s.results[i].task in s.rows && FrameOk(s.rows[s.results[i].task], s.results[i])
    ensures s'.results[i].task in s'.rows && FrameOk(s'.rows[s'.results[i].task], s'.results[i])
  {
    if i < |s.results| {
      assert s'.results[i] == s.results[i];
    } else {
      assert s'.results[i] == frames[i - |s.results|];
    }
  }

  lemma LoggedKeepsOutcomes(s: State, s': State, t: TaskId, e: Event, frames: seq<ResultFrame>)
    requires OutcomesInv(s) && Logged(s, s', t, e, frames) && Announced(s, s', t, e, frames)
    ensures OutcomesInv(s')
  {
    forall u ensures if u in s'.rows then Ledger(s', u) else NoTrace(s', u) {
      if u in s.rows { LoggedLedger(s, s', t, e, frames, u); }
      else { LoggedNoTrace(s, s', t, e, frames, u); }
    }
    forall i | 0 <= i < |s'.results|
      ensures s'.results[i].task in s'.rows && FrameOk(s'.rows[s'.results[i].task], s'.results[i])
    {
      LoggedFrame(s, s', t, e, frames, i);
    }
  }

  lemma CompleteKeepsOutcomes(s: State, t: TaskId, reporter: AgentId, status: TaskStatus, code: int,
                              output: Option<Blob>, error: Option<Blob>)
    requires OutcomesInv(s)
    ensures OutcomesInv(CompleteTask(s, t, reporter, status, code, output, error))
  {
    var to := StateFromStatus(status);
    if t in s.rows && reporter == s.rows[t].active && Transition(s, t, to, ByResult, Some(code), output, error).Ok? {
      var e, frames := CompleteLogged(s, t, status, code, output, error);
      LoggedKeepsOutcomes(s, CompleteTask(s, t, reporter, status, code, output, error), t, e, frames);
    }
  }

  lemma CompleteLogged(s: State, t: TaskId, status: TaskStatus, code: int, output: Option<Blob>, error: Option<Blob>)
    returns (e: Event, frames: seq<ResultFrame>)
    requires t in s.rows && ColumnsOk(s.rows[t])
    requires Transition(s, t, StateFromStatus(status), ByResult, Some(code), output, error).Ok?
    ensures var s' := CompleteTask(s, t, s.rows[t].active, status, code, output, error);
            Logged(s, s', t, e, frames) && Announced(s, s', t, e, frames)
  {
    var to := StateFromStatus(status);
    var origin := OriginOf(s, t, to);
    e := if origin == First then Moved(t, to, ByResult) else Stayed(t, to, ByResult);
    frames := [ResultFrame(t, s.rows[t].caller, status, code, output, error, origin)];
  }

  lemma CancelKeepsOutcomes(s: State, t: TaskId, note: Blob)
    requires OutcomesInv(s)
    ensures OutcomesInv(CancelRow(s, t, note))
  {
    var to := TaskState.Cancelled;
    if Transition(s, t, to, ByCancel, None, None, None).Ok? {
      var origin := OriginOf(s, t, to);
      LoggedKeepsOutcomes(s, CancelRow(s, t, note), t,
        if origin == First then Moved(t, to, ByCancel) else Stayed(t, to, ByCancel),
        [ResultFrame(t, s.rows[t].caller, TaskStatus.Cancelled, 499, None, Some(note), origin)]);
    }
  }

  /** fail_task's transaction, in the shape LoggedKeepsOutcomes expects. */
  lemma FailLogged(s: State, t: TaskId, status: TaskStatus, code: int, error: Blob) returns (e: Event, frames: seq<ResultFrame>)
    requires status == TaskStatus.Failed || status == TaskStatus.TimedOut
    requires t in s.rows && ColumnsOk(s.rows[t])
    requires s.rows[t].parent.Some? ==> s.rows[t].parent.value in s.rows
    requires Transition(s, t, StateFromStatus(status), ByFailure, Some(code), None, Some(error)).Ok?
    ensures var s' := FailRow(s, t, status, code, error);
            Logged(s, s', t, e, frames) && Announced(s, s', t, e, frames)
  {
    var to := StateFromStatus(status);
    var origin, parent := OriginOf(s, t, to), s.rows[t].parent;
    e := if origin == First then Moved(t, to, ByFailure) else Stayed(t, to, ByFailure);
    frames := if parent.None? then []
              else [ResultFrame(t, s.rows[parent.value].agent, status, code, None, Some(error), origin)];
  }

  lemma FailKeepsOutcomes(s: State, t: TaskId, status: TaskStatus, code: int, error: Blob)
    requires OutcomesInv(s) && Rooted(s.rows)
    requires status == TaskStatus.Failed || status == TaskStatus.TimedOut
    ensures OutcomesInv(FailRow(s, t, status, code, error))
  {
    if Transition(s, t, StateFromStatus(status), ByFailure, Some(code), None, Some(error)).Ok? {
      assert ParentOk(s.rows, t);
      var e, frames := FailLogged(s, t, status, code, error);
      LoggedKeepsOutcomes(s, FailRow(s, t, status, code, error), t, e, frames);
    }
  }

  lemma AckKeepsOutcomes(s: State, t: TaskId)
    requires OutcomesInv(s)
    ensures OutcomesInv(AckRow(s, t))
  {
    var to := TaskState.Running;
    if Transition(s, t, to, ByAck, None, None, None).Ok? {
      LoggedKeepsOutcomes(s, AckRow(s, t), t,
        if s.rows[t].state == to then Stayed(t, to, ByAck) else Moved(t, to, ByAck), []);
    }
  }

  predicate SameOutcome(a: Row, b: Row) {
    b.parent == a.parent && (a.state.Terminal() ==> b == a)
  }

  ghost predicate SameReplays(before: map<RequestId, Admission>, after: map<RequestId, Admission>) {
    forall t :: ReplaysOf(after, t) == ReplaysOf(before, t)
  }

  lemma SettleReplays(before: map<RequestId, Admission>, id: RequestId, a: Admission)
    requires id in before ==> !before[id].Returned?
    requires a.Returned? ==> a.replay.None?
    ensures SameReplays(before, before[id := a])
  {
  }

  /** A step that logs no ending and replays nothing. */
  ghost predicate Silent(s: State, s': State) {
    && (forall t :: t in s.rows ==> t in s'.rows && SameOutcome(s.rows[t], s'.rows[t]))
    && (forall t :: t in s'.rows ==> ColumnsOk(s'.rows[t]))
    && s'.results == s.results
    && (s'.events == s.events || exists e :: s'.events == s.events + [e] && !e.Moved? && !e.Stayed?)
    && SameReplays(s.admissions, s'.admissions)
    && (forall id :: id in s'.admissions && (s'.admissions[id].Created? || s'.admissions[id].Returned?) ==>
          s'.admissions[id].task in s'.rows)
  }

  lemma SilentCounts(s: State, s': State, t: TaskId)
    requires s'.events == s.events || exists e :: s'.events == s.events + [e] && !e.Moved? && !e.Stayed?
    ensures forall root, moved :: CountEnds(s'.events, t, root, moved) == CountEnds(s.events, t, root, moved)
  {
    if s'.events != s.events {
      var e :| s'.events == s.events + [e] && !e.Moved? && !e.Stayed?;
      forall root, moved
        ensures CountEnds(s'.events, t, root, moved) == CountEnds(s.events, t, root, moved)
      {
        EndsAppend(s.events, e, t, root, moved);
      }
    }
  }

  lemma SilentLedger(s: State, s': State, t: TaskId)
    requires Silent(s, s') && t in s'.rows
    requires if t in s.rows then Ledger(s, t) else NoTrace(s, t)
    ensures Ledger(s', t)
  {
    SilentCounts(s, s', t);
  }

  lemma SilentKeepsOutcomes(s: State, s': State)
    requires OutcomesInv(s) && Silent(s, s')
    ensures OutcomesInv(s')
  {
    forall t | t in s'.rows ensures Ledger(s', t) { SilentLedger(s, s', t); }
    forall t | t !in s'.rows ensures NoTrace(s', t) {
      assert NoTrace(s, t);
      SilentCounts(s, s', t);
    }
  }

  lemma JoinReplays(before: map<RequestId, Admission>, id: RequestId, a: Admission, u: TaskId)
    requires a.Returned? && (id in before ==> !before[id].Returned?)
    ensures |ReplaysOf(before[id := a], u)| == |ReplaysOf(before, u)| + (if a.replay.Some? && u == a.task then 1 else 0)
  {
    var earlier, later := ReplaysOf(before, u), ReplaysOf(before[id := a], u);
    assert id !in earlier;
    if a.replay.Some? && u == a.task {
      assert later == earlier + {id};
    } else {
      assert later == earlier;
    }
  }

  lemma JoinCounts(s: State, id: RequestId, spawn: Spawn, t: TaskId, u: TaskId)
    requires t in s.rows && (id in s.admissions ==> !s.admissions[id].Returned?)
    ensures var s' := Join(s, id, spawn, t);
            var hit := ReplayOf(s.rows[t], t, spawn.caller).Some? && u == t;
            && |ReplaysOf(s'.admissions, u)| == |ReplaysOf(s.admissions, u)| + (if hit then 1 else 0)
            && forall origin :: CountFrames(s'.results, u, origin) == CountFrames(s.results, u, origin) + (if hit && origin == Replay then 1 else 0)
  {
    var replay := ReplayOf(s.rows[t], t, spawn.caller);
    JoinReplays(s.admissions, id, Returned(spawn, t, replay), u);
    if replay.Some? {
      forall origin
        ensures CountFrames(s.results + [replay.value], u, origin) == CountFrames(s.results, u, origin) + (if u == t && origin == Replay then 1 else 0)
      {
        FramesAppend(s.results, replay.value, u, origin);
      }
    }
  }

  lemma JoinLedger(s: State, s': State, id: RequestId, spawn: Spawn, t: TaskId, u: TaskId)
    requires t in s.rows && (id in s.admissions ==> !s.admissions[id].Returned?)
    requires s' == Join(s, id, spawn, t)
    ensures u in s.rows && Ledger(s, u) ==> Ledger(s', u)
    ensures u !in s.rows && NoTrace(s, u) ==> NoTrace(s', u)
  {
    JoinCounts(s, id, spawn, t, u);
  }

  lemma JoinKeepsOutcomes(s: State, id: RequestId, spawn: Spawn, t: TaskId)
    requires OutcomesInv(s) && t in s.rows
    requires id in s.admissions ==> !s.admissions[id].Returned?
    ensures OutcomesInv(Join(s, id, spawn, t))
  {
    var s' := Join(s, id, spawn, t);
    forall u | u in s'.rows ensures Ledger(s', u) { JoinLedger(s, s', id, spawn, t, u); }
    forall u | u !in s'.rows ensures NoTrace(s', u) { JoinLedger(s, s', id, spawn, t, u); }
  }

  lemma SettleKeepsOutcomes(s: State, id: RequestId, a: Admission)
    requires OutcomesInv(s) && (id in s.admissions ==> !s.admissions[id].Returned?)
    requires a.Returned? ==> a.replay.None?
    requires a.Created? || a.Returned? ==> a.task in s.rows
    ensures OutcomesInv(Settle(s, id, a))
  {
    SettleReplays(s.admissions, id, a);
    SilentKeepsOutcomes(s, Settle(s, id, a));
  }

  lemma InsertKeepsOutcomes(s: State, id: RequestId, t: TaskId)
    requires OutcomesInv(s)
    ensures OutcomesInv(Insert(s, id, t))
  {
    var s' := Insert(s, id, t);
    if s'.events != s.events {
      InsertSilent(s, id, t);
      SilentKeepsOutcomes(s, s');
    } else if id in s.admissions && s.admissions[id].Measured? && s' != s {
      SettleKeepsOutcomes(s, id, s'.admissions[id]);
    }
  }

  lemma InsertSilent(s: State, id: RequestId, t: TaskId)
    requires Insert(s, id, t).events != s.events && forall u :: u in s.rows ==> ColumnsOk(s.rows[u])
    requires forall k :: k in s.admissions && (s.admissions[k].Created? || s.admissions[k].Returned?) ==>
               s.admissions[k].task in s.rows
    ensures Silent(s, Insert(s, id, t))
  {
    var s', spawn := Insert(s, id, t), s.admissions[id].spawn;
    assert s'.events == s.events + [Admitted(t, spawn.caller)] && t !in s.rows;
    assert s'.rows == s.rows[t := s'.rows[t]] && s'.admissions == s.admissions[id := Created(spawn, t)];
    SettleReplays(s.admissions, id, Created(spawn, t));
  }

  lemma FlipKeepsOutcomes(s: State, id: RequestId)
    requires OutcomesInv(s)
    ensures OutcomesInv(Flip(s, id))
  {
    var s' := Flip(s, id);
    if s'.events != s.events {
      var e := s'.events[|s.events|];
      assert s'.events == s.events + [e] && !e.Moved? && !e.Stayed?;
    }
    SilentKeepsOutcomes(s, s');
  }

  lemma AnswerKeepsOutcomes(s: State, id: RequestId, outcome: AckOutcome, error: Blob)
    requires OutcomesInv(s) && Rooted(s.rows)
    ensures OutcomesInv(Answer(s, id, outcome, error))
  {
    if id in s.admissions && s.admissions[id].Created? {
      var spawn, t := s.admissions[id].spawn, s.admissions[id].task;
      match outcome
      case Accepted =>
        AckKeepsOutcomes(s, t);
        SettleKeepsOutcomes(AckRow(s, t), id, Returned(spawn, t, None));
      case Disconnected => FailedDispatch(s, id, t, 503, error, Refused(spawn, AgentDisconnected));
      case TimedOutWaiting => FailedDispatch(s, id, t, 504, error, Refused(spawn, AckTimeout));
      case Refusal => FailedDispatch(s, id, t, 400, error, Refused(spawn, Rejected));
      case Broken => SettleKeepsOutcomes(s, id, Refused(spawn, InternalError));
    }
  }

  lemma FailTouchesNoAdmission(s: State, t: TaskId, code: int, error: Blob)
    ensures FailRow(s, t, TaskStatus.Failed, code, error).admissions == s.admissions
  {
  }

  lemma FailedDispatch(s: State, id: RequestId, t: TaskId, code: int, error: Blob, a: Admission)
    requires OutcomesInv(s) && Rooted(s.rows) && a.Refused?
    requires id in s.admissions && s.admissions[id].Created?
    ensures OutcomesInv(Settle(FailRow(s, t, TaskStatus.Failed, code, error), id, a))
  {
    FailKeepsOutcomes(s, t, TaskStatus.Failed, code, error);
    FailTouchesNoAdmission(s, t, code, error);
    SettleKeepsOutcomes(FailRow(s, t, TaskStatus.Failed, code, error), id, a);
  }

  lemma ArriveKeepsOutcomes(s: State, id: RequestId, spawn: Spawn)
    requires OutcomesInv(s)
    ensures OutcomesInv(Arrive(s, id, spawn)) && OutcomesInv(Retry(s, id))
  {
    if id !in s.admissions {
      var found := if Looked(spawn) then FindIdempotent(s, spawn) else None;
      if found.Some? { JoinKeepsOutcomes(s, id, spawn, found.value); }
      else { SettleKeepsOutcomes(s, id, Missed(spawn)); }
    } else if s.admissions[id].Collided? {
      var mine := s.admissions[id].spawn;
      var found := FindIdempotent(s, mine);
      if found.Some? { JoinKeepsOutcomes(s, id, mine, found.value); }
      else { SettleKeepsOutcomes(s, id, Refused(mine, InternalError)); }
    }
  }

  lemma MeasureKeepsOutcomes(s: State, id: RequestId, why: AdmitError)
    requires OutcomesInv(s)
    ensures OutcomesInv(Measure(s, id)) && OutcomesInv(Deny(s, id, why))
  {
    if id in s.admissions && (s.admissions[id].Missed? || s.admissions[id].Measured?) {
      var spawn := s.admissions[id].spawn;
      SettleKeepsOutcomes(s, id, Refused(spawn, why));
      SettleKeepsOutcomes(s, id, Refused(spawn, SpawnDepthExceeded));
      if s.admissions[id].Missed? && Measure(s, id).admissions[id].Measured? {
        SettleKeepsOutcomes(s, id, Measure(s, id).admissions[id]);
      }
    }
  }

  lemma ForceFailKeepsOutcomes(s: State, t: TaskId, user: UserId, code: int, error: Blob)
    requires OutcomesInv(s)
    ensures OutcomesInv(ForceFail(s, t, user, code, error))
  {
    SilentKeepsOutcomes(s, ForceFail(s, t, user, code, error));
  }

  lemma HandoffsKeepOutcomes(s: State, s': State)
    requires OutcomesInv(s) && s' == s.(handoffs := s'.handoffs)
    ensures OutcomesInv(s')
  {
    SilentKeepsOutcomes(s, s');
  }

  lemma StepKeepsOutcomes(s: State, step: Step)
    requires OutcomesInv(s) && Rooted(s.rows)
    ensures OutcomesInv(Apply(s, step))
  {
    match step
    case SResult(t, reporter, status, code, output, error) =>
      CompleteKeepsOutcomes(s, t, reporter, status, code, output, error);
    case SCancel(t, note) => CancelKeepsOutcomes(s, t, note);
    case SFail(t, timedOut, code, failure) => FailKeepsOutcomes(s, t, FailureStatus(timedOut), code, failure);
    case SFlip(id) => FlipKeepsOutcomes(s, id);
    case SArrive(id, spawn) => ArriveKeepsOutcomes(s, id, spawn);
    case SMeasure(id) => MeasureKeepsOutcomes(s, id, InternalError);
    case SDeny(id, why) => MeasureKeepsOutcomes(s, id, why);
    case SInsert(id, t) => InsertKeepsOutcomes(s, id, t);
    case SRetry(id) => ArriveKeepsOutcomes(s, id, Spawn(0, 0, 0, None, None));
    case SAnswer(id, outcome, failure) => AnswerKeepsOutcomes(s, id, outcome, failure);
    case SForceFail(t, user, code, failure) => ForceFailKeepsOutcomes(s, t, user, code, failure);
    case SAsk(_, _, _, _, _) => HandoffsKeepOutcomes(s, Apply(s, step));
    case SGiveUp(_) => HandoffsKeepOutcomes(s, Apply(s, step));
  }

  lemma {:induction false} OutcomesInEveryRun(limits: Limits, steps: seq<Step>)
    requires LegalLimits(limits)
    ensures OutcomesInv(Run(Start(limits), steps))
    decreases |steps|
  {
    if steps != [] {
      var init := steps[..|steps| - 1];
      OutcomesInEveryRun(limits, init);
      TreeInEveryRun(limits, init);
      StepKeepsOutcomes(Run(Start(limits), init), steps[|steps| - 1]);
    }
  }

  /** In every run all Result frames planned for a task, by whichever request and however
      many there are, name one outcome: the state its row is in, and stays in. */
  lemma OneOutcomePerTask(limits: Limits, past: seq<Step>, future: seq<Step>, i: nat, j: nat)
    requires LegalLimits(limits)
    requires i < |Run(Start(limits), past).results|
    requires j < |Run(Run(Start(limits), past), future).results|
    requires Run(Start(limits), past).results[i].task == Run(Run(Start(limits), past), future).results[j].task
    ensures var s := Run(Start(limits), past);
            var s' := Run(s, future);
            var f, g := s.results[i], s'.results[j];
            && f.status == g.status
            && f.task in s.rows && f.task in s'.rows && s'.rows[f.task] == s.rows[f.task]
            && s.rows[f.task].state == StateFromStatus(f.status)
  {
    var s := Run(Start(limits), past);
    RunConcat(Start(limits), past, future);
    OutcomesInEveryRun(limits, past);
    OutcomesInEveryRun(limits, past + future);
    RunEvolves(s, future);
    StatusRoundTrip(s.rows[s.results[i].task].state, s.results[i].status);
    StatusRoundTrip(s.rows[s.results[i].task].state, Run(s, future).results[j].status);
  }

  function CountAll(frames: seq<ResultFrame>, t: TaskId): nat {
    if frames == [] then 0
    else CountAll(frames[..|frames| - 1], t) + (if frames[|frames| - 1].task == t then 1 else 0)
  }

  lemma {:induction false} CountByOrigin(frames: seq<ResultFrame>, t: TaskId)
    ensures CountAll(frames, t) ==
            CountFrames(frames, t, First) + CountFrames(frames, t, Repeat) + CountFrames(frames, t, Replay)
  {
    if frames != [] { CountByOrigin(frames[..|frames| - 1], t); }
  }

  /** The counting law. Every frame for a task is accounted for by the log: one for each
      announced real ending (of which there is at most one), one for each announced
      same-state no-op, one for each replay. fail_task announces nothing for a root task,
      so its endings are left out of the count there. */
  lemma FramesAccountedFor(limits: Limits, steps: seq<Step>, t: TaskId)
    requires LegalLimits(limits)
    requires t in Run(Start(limits), steps).rows
    ensures var s := Run(Start(limits), steps);
            var root := IsRoot(s.rows[t]);
            && CountAll(s.results, t) ==
                 CountEnds(s.events, t, root, true) + CountEnds(s.events, t, root, false) + |ReplaysOf(s.admissions, t)|
            && CountEnds(s.events, t, root, true) <= CountEnds(s.events, t, false, true) <= 1
            && CountFrames(s.results, t, First) <= 1
            && CountAll(s.results, t) <= 1 + CountEnds(s.events, t, false, false) + |ReplaysOf(s.admissions, t)|
            && (!s.rows[t].state.Terminal() ==> CountAll(s.results, t) == 0)
  {
    var s := Run(Start(limits), steps);
    OutcomesInEveryRun(limits, steps);
    CountByOrigin(s.results, t);
    EndsAtMost(s.events, t, IsRoot(s.rows[t]), true);
    EndsAtMost(s.events, t, IsRoot(s.rows[t]), false);
    assert Ledger(s, t);
    if !s.rows[t].state.Terminal() { NoFramesWhileLive(s, t, s.results); }
  }

  lemma {:induction false} NoFramesWhileLive(s: State, t: TaskId, frames: seq<ResultFrame>)
    requires OutcomesInv(s) && t in s.rows && !s.rows[t].state.Terminal() && frames <= s.results
    ensures CountAll(frames, t) == 0
    decreases |frames|
  {
    if frames != [] {
      assert frames[|frames| - 1] == s.results[|frames| - 1];
      NoFramesWhileLive(s, t, frames[..|frames| - 1]);
    }
  }

  /** A replay tells a retrying caller what the original caller was told: same status,
      code and output as the first announcement. The error document agrees exactly when
      the row has a stored code, that is unless the router itself cancelled the task. */
  lemma ReplayMatchesFirst(limits: Limits, steps: seq<Step>, i: nat, j: nat)
    requires LegalLimits(limits)
    requires i < |Run(Start(limits), steps).results| && j < |Run(Start(limits), steps).results|
    requires var s := Run(Start(limits), steps);
             s.results[i].task == s.results[j].task && s.results[i].origin == First && s.results[j].origin == Replay
    ensures var s := Run(Start(limits), steps);
            var first, replay := s.results[i], s.results[j];
            && first.status == replay.status && first.code == replay.code && first.output == replay.output
            && first.task in s.rows
            && (first.error == replay.error <==> s.rows[first.task].statusCode.Some?)
  {
    var s := Run(Start(limits), steps);
    OutcomesInEveryRun(limits, steps);
    var row := s.rows[s.results[i].task];
    StatusRoundTrip(row.state, s.results[i].status);
    StatusRoundTrip(row.state, s.results[j].status);
  }

  ghost predicate RepeatDiffers(s: State) {
    exists i, j :: 0 <= i < |s.results| && 0 <= j < |s.results| &&
      s.results[i].task == s.results[j].task && s.results[i].origin == First && s.results[j].origin == Repeat &&
      s.results[i].code != s.results[j].code
  }

  const LONE: Row := Row(1, None, 11, 10, 11, None, 0, TaskState.Queued, None, None, None)

  lemma OneTaskAdmitted(limits: Limits, steps: seq<Step>)
    requires LegalLimits(limits)
    requires steps == [SArrive(0, Spawn(1, 10, 11, None, None)), SMeasure(0), SInsert(0, 100)]
    ensures var s := Run(Start(limits), steps);
            && s.rows == map[100 := LONE] && s.results == [] && s.events == [Admitted(100, 10)]
            && s.handoffs == map[] && s.limits == limits
            && s.admissions == map[0 := Created(Spawn(1, 10, 11, None, None), 100)]
  {
    var s0, spawn := Start(limits), Spawn(1, 10, 11, None, None);
    assert steps[..0] == [] && steps[..1][..0] == [] && steps[..2][..1] == steps[..1] && steps[..3][..2] == steps[..2];
    assert Run(s0, []) == s0;
    var s1 := Run(s0, steps[..1]);
    assert s1 == Apply(s0, steps[0]);
    assert s1.admissions == map[0 := Missed(spawn)] && s1.rows == map[];
    var s2 := Run(s0, steps[..2]);
    assert s2 == Apply(s1, steps[1]);
    assert s2.admissions == map[0 := Measured(spawn, 0)] && s2.rows == map[];
    assert steps[..3] == steps;
    assert Run(s0, steps) == Apply(s2, steps[2]);
  }

  /** Repeated announcements agree on the status only: an executor that reports failure
      twice with different codes has both sent on, because the second transition is a
      same-state no-op and not an error. */
  lemma RepeatMayCarryAnotherCode()
    ensures exists steps :: RepeatDiffers(Run(Start(Limits(1, 1)), steps))
  {
    var s0 := Start(Limits(1, 1));
    var admit := [SArrive(0, Spawn(1, 10, 11, None, None)), SMeasure(0), SInsert(0, 100)];
    OneTaskAdmitted(Limits(1, 1), admit);
    var once := admit + [SResult(100, 11, TaskStatus.Failed, 500, None, None)];
    var twice := once + [SResult(100, 11, TaskStatus.Failed, 400, None, None)];
    RunSnoc(s0, admit, SResult(100, 11, TaskStatus.Failed, 500, None, None));
    RunSnoc(s0, once, SResult(100, 11, TaskStatus.Failed, 400, None, None));
    var s4, s5 := Run(s0, once), Run(s0, twice);
    assert s4.results == [ResultFrame(100, 10, TaskStatus.Failed, 500, None, None, First)];
    assert s5.results == s4.results + [ResultFrame(100, 10, TaskStatus.Failed, 400, None, None, Repeat)];
    assert s5.results[0].code != s5.results[1].code;
    assert RepeatDiffers(s5);
  }
}
