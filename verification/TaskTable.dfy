/** The router's task tables and the atomic steps that change them.

    One database transaction is one step: a function from the whole state to the
    next. Between two steps of one request any other request's steps may run, so a
    run of the router is any sequence of steps. Requests that span several
    transactions (delegation, admission) leave an in-flight record in the state. */
module TaskTable {
  import opened Options
  import opened TaskStates

  // Identifiers are only ever compared for equality.
  type TaskId = nat
  type UserId = nat
  type AgentId = nat
  type RequestId = nat
  /** An output or error document. */
  type Blob = nat

  /** MAX_TREE is the recursion bound of the tree queries. */
  const MAX_TREE: nat := 64

  datatype Row = Row(
    user: UserId,
    parent: Option<TaskId>,
    agent: AgentId,       // the original executor
    caller: AgentId,      // where Results go
    active: AgentId,      // the current executor
    key: Option<string>,
    born: nat,            // creation order
    state: TaskState,
    statusCode: Option<int>,
    output: Option<Blob>,
    error: Option<Blob>)

  /** Why a transition was attempted. */
  datatype Cause = ByResult | ByCancel | ByFailure | ByAck

  /** task_events rows: a real transition, a same-state no-op, a hand-off, an admission. */
  datatype Event =
    | Moved(task: TaskId, to: TaskState, cause: Cause)
    | Stayed(task: TaskId, to: TaskState, cause: Cause)
    | Delegated(task: TaskId, from: AgentId, dest: AgentId)
    | Admitted(task: TaskId, caller: AgentId)

  /** Which transaction planned a Result frame: a real transition, a no-op, or an
      idempotent retry that found the row terminal. */
  datatype Origin = First | Repeat | Replay

  datatype ResultFrame = ResultFrame(
    task: TaskId, to: AgentId, status: TaskStatus, code: int,
    output: Option<Blob>, error: Option<Blob>, origin: Origin)

  datatype CancelFrame = CancelFrame(task: TaskId, to: AgentId)

  /** A delegation between its validation and its flip, with what validation read. */
  datatype Handoff = Handoff(task: TaskId, user: UserId, caller: AgentId, dest: AgentId, prior: seq<AgentId>)

  /** A spawn request. */
  datatype Spawn = Spawn(user: UserId, caller: AgentId, dest: AgentId, parent: Option<TaskId>, key: Option<string>)

  datatype Admission =
    | Missed(spawn: Spawn)                                // idempotency lookup found nothing
    | Measured(spawn: Spawn, depth: nat)                  // parent depth read and accepted
    | Collided(spawn: Spawn)                              // INSERT hit the unique constraint
    | Created(spawn: Spawn, task: TaskId)                 // row committed, ack awaited
    | Returned(spawn: Spawn, task: TaskId, replay: Option<ResultFrame>)
    | Refused(spawn: Spawn, error: AdmitError)

  datatype AdmitError =
    | TaskUnknown | TaskTerminal | NotActiveExecutor
    | DelegationDepthExceeded | DelegationCycle | DelegationInternal
    | SessionUnusable | SpawnDepthExceeded | InvalidParentTask
    | AgentDisconnected | AckTimeout | Rejected | InternalError

  datatype TransitionError = NotFound | Illegal

  /** How the destination answered a NewTask frame. Broken stands for the exceptions
      the admission code does not catch: a full outbox or a socket that died. */
  datatype AckOutcome = Accepted | Disconnected | TimedOutWaiting | Refusal | Broken

  datatype Limits = Limits(maxHops: nat, maxDepth: nat)

  datatype State = State(
    limits: Limits,
    rows: map<TaskId, Row>,
    events: seq<Event>,
    results: seq<ResultFrame>,   // Result frames planned, in commit order
    cancels: seq<CancelFrame>,   // CancelFrames planned
    handoffs: map<RequestId, Handoff>,
    admissions: map<RequestId, Admission>)

  function Start(limits: Limits): State {
    State(limits, map[], [], [], [], map[], map[])
  }

  // ---------------------------------------------------------------- state changes

  /** task_transition: the only writer of a row's state besides ForceFail. */
  function Transition(s: State, t: TaskId, to: TaskState, cause: Cause,
                      code: Option<int>, output: Option<Blob>, error: Option<Blob>)
    : Result<State, TransitionError>
  {
    if t !in s.rows then
      Err(NotFound)
    else if s.rows[t].state == to then
      Ok(s.(events := s.events + [Stayed(t, to, cause)]))
    else if to !in Allowed(s.rows[t].state) then
      Err(Illegal)
    else
      var row := s.rows[t];
      Ok(s.(rows := s.rows[t := row.(state := to,
                                     statusCode := Coalesce(code, row.statusCode),
                                     output := Coalesce(output, row.output),
                                     error := Coalesce(error, row.error))],
            events := s.events + [Moved(t, to, cause)]))
  }

  function OriginOf(s: State, t: TaskId, to: TaskState): Origin
    requires t in s.rows
  {
    if s.rows[t].state == to then Repeat else First
  }

  /** complete_task: the locked read, the executor check and the transition. */
  function CompleteTask(s: State, t: TaskId, reporter: AgentId, status: TaskStatus, code: int,
                        output: Option<Blob>, error: Option<Blob>): State
  {
    if t !in s.rows || reporter != s.rows[t].active then s
    else
      match Transition(s, t, StateFromStatus(status), ByResult, Some(code), output, error)
      case Err(_) => s
      case Ok(s1) =>
        s1.(results := s1.results +
            [ResultFrame(t, s.rows[t].caller, status, code, output, error,
                         OriginOf(s, t, StateFromStatus(status)))])
  }

  /** One iteration of cancel_task's loop, and of fail_task's cascade. */
  function CancelRow(s: State, t: TaskId, note: Blob): State {
    match Transition(s, t, TaskState.Cancelled, ByCancel, None, None, None)
    case Err(_) => s
    case Ok(s1) =>
      s1.(results := s1.results +
          [ResultFrame(t, s.rows[t].caller, TaskStatus.Cancelled, 499, None, Some(note),
                       OriginOf(s, t, TaskState.Cancelled))],
          cancels := s1.cancels + [CancelFrame(t, s.rows[t].active)])
  }

  /** fail_task's own transaction, with the upward Result it plans: none for a root
      task. The frame goes to the parent row's original executor. */
  function FailRow(s: State, t: TaskId, status: TaskStatus, code: int, error: Blob): State
    requires status == TaskStatus.Failed || status == TaskStatus.TimedOut
  {
    match Transition(s, t, StateFromStatus(status), ByFailure, Some(code), None, Some(error))
    case Err(_) => s
    case Ok(s1) =>
      var parent := s.rows[t].parent;
      if parent.None? || parent.value !in s.rows then s1
      else
        s1.(results := s1.results +
            [ResultFrame(t, s.rows[parent.value].agent, status, code, None, Some(error),
                         OriginOf(s, t, StateFromStatus(status)))])
  }

  /** Scope.force_fail_task: one guarded UPDATE, no event, no frame. */
  function ForceFail(s: State, t: TaskId, user: UserId, code: int, error: Blob): State {
    if t !in s.rows || s.rows[t].user != user || s.rows[t].state.Terminal() then s
    else s.(rows := s.rows[t := s.rows[t].(state := TaskState.Failed, statusCode := Some(code), error := Some(error))])
  }

  /** The executor accepted: QUEUED to RUNNING, tolerated when the row moved on. */
  function AckRow(s: State, t: TaskId): State {
    match Transition(s, t, TaskState.Running, ByAck, None, None, None)
    case Err(_) => s
    case Ok(s1) => s1
  }

  /** The rows fail_inflight_for_agent selects: by the ORIGINAL executor. */
  function InflightOf(s: State, agent: AgentId): set<TaskId> {
    set t | t in s.rows && s.rows[t].agent == agent && !s.rows[t].state.Terminal()
  }

  /** The live tasks an agent is executing. */
  function ExecutedBy(s: State, agent: AgentId): set<TaskId> {
    set t | t in s.rows && s.rows[t].active == agent && !s.rows[t].state.Terminal()
  }

  // ---------------------------------------------------------------- delegation

  /** Every destination a task was handed to, oldest first. */
  function HopsOf(events: seq<Event>, t: TaskId): seq<AgentId> {
    if events == [] then []
    else
      var last := events[|events| - 1];
      HopsOf(events[..|events| - 1], t) + (if last.Delegated? && last.task == t then [last.dest] else [])
  }

  /** list_delegation_destinations: user-scoped, with its LIMIT. */
  function PriorDestinations(s: State, t: TaskId, limit: nat): seq<AgentId> {
    var hops := HopsOf(s.events, t);
    if |hops| <= limit then hops else hops[..limit]
  }

  /** Phase A, under the row lock: what it read, or why it refused. */
  function ValidateHandoff(s: State, t: TaskId, user: UserId, caller: AgentId, dest: AgentId)
    : Result<Handoff, AdmitError>
  {
    if t !in s.rows || s.rows[t].user != user then Err(TaskUnknown)
    else if s.rows[t].state.Terminal() then Err(TaskTerminal)
    else if s.rows[t].active != caller then Err(NotActiveExecutor)
    else
      var prior := PriorDestinations(s, t, s.limits.maxHops + 1);
      if |prior| >= s.limits.maxHops then Err(DelegationDepthExceeded)
      else if dest == s.rows[t].agent || dest in prior then Err(DelegationCycle)
      else Ok(Handoff(t, user, caller, dest, prior))
  }

  /** Phase C, after the ack, under a fresh row lock. No cycle or depth check. */
  function FlipHandoff(s: State, h: Handoff): Result<State, AdmitError> {
    if h.task !in s.rows || s.rows[h.task].user != h.user then Err(TaskUnknown)
    else if s.rows[h.task].state.Terminal() then Err(TaskTerminal)
    else if s.rows[h.task].active != h.caller then Err(NotActiveExecutor)
    else
      Ok(s.(rows := s.rows[h.task := s.rows[h.task].(active := h.dest)],
            events := s.events + [Delegated(h.task, h.caller, h.dest)]))
  }

  // ---------------------------------------------------------------- the task tree

  /** count_task_chain_depth: the length of a task's ancestor chain, itself included,
      within one user's rows and cut at the budget. 0 for a task not found there. */
  function ChainDepth(rows: map<TaskId, Row>, user: UserId, t: TaskId, budget: nat): nat
    decreases budget
  {
    if budget == 0 || t !in rows || rows[t].user != user then 0
    else
      1 + match rows[t].parent
          case None => 0
          case Some(p) => ChainDepth(rows, user, p, budget - 1)
  }

  function Children(rows: map<TaskId, Row>, user: UserId, parents: set<TaskId>): set<TaskId> {
    set t | t in rows && rows[t].user == user && rows[t].parent.Some? && rows[t].parent.value in parents
  }

  /** The recursive part of list_descendants: everything up to `budget` levels below. */
  function Below(rows: map<TaskId, Row>, user: UserId, frontier: set<TaskId>, budget: nat): set<TaskId>
    decreases budget
  {
    if budget == 0 then frontier
    else frontier + Below(rows, user, Children(rows, user, frontier), budget - 1)
  }

  /** list_descendants. */
  function Descendants(rows: map<TaskId, Row>, user: UserId, t: TaskId): set<TaskId> {
    Below(rows, user, Children(rows, user, {t}), MAX_TREE)
  }

  // ---------------------------------------------------------------- admission

  predicate Matches(row: Row, spawn: Spawn) {
    row.user == spawn.user && row.caller == spawn.caller && spawn.key.Some? && row.key == spawn.key
  }

  lemma LeastExists(hits: set<TaskId>) returns (least: TaskId)
    requires hits != {}
    ensures least in hits && forall t :: t in hits ==> least <= t
    decreases hits
  {
    var x :| x in hits;
    if hits == {x} {
      least := x;
    } else {
      var rest := LeastExists(hits - {x});
      least := if rest < x then rest else x;
      assert forall t :: t in hits ==> t == x || t in hits - {x};
    }
  }

  function LookupHits(rows: map<TaskId, Row>, spawn: Spawn): set<TaskId> {
    set t | t in rows && Matches(rows[t], spawn)
  }

  /** find_idempotent: a row with this caller, user and key. The key is unique, so which
      of several hits is taken never matters; the least is taken here. */
  function FindIdempotent(s: State, spawn: Spawn): (found: Option<TaskId>)
    ensures found.Some? ==> found.value in s.rows && Matches(s.rows[found.value], spawn)
    ensures found.None? ==> forall t :: t in s.rows ==> !Matches(s.rows[t], spawn)
  {
    var hits := LookupHits(s.rows, spawn);
    if hits == {} then
      assert forall t :: t in s.rows && Matches(s.rows[t], spawn) ==> t in hits;
      None
    else
      assert exists t :: t in hits && forall u :: u in hits ==> t <= u by { var t := LeastExists(hits); }
      var t :| t in hits && forall u :: u in hits ==> t <= u;
      Some(t)
  }

  /** The code of a row's terminal outcome as a replay reports it. */
  function ReplayCode(row: Row, status: TaskStatus): int {
    if row.statusCode.Some? then row.statusCode.value else DefaultCode(status)
  }

  /** _idempotent_admit_result: a terminal row is replayed, a live one is joined. */
  function ReplayOf(row: Row, t: TaskId, to: AgentId): Option<ResultFrame> {
    match StatusFromState(row.state)
    case None => None
    case Some(status) =>
      Some(ResultFrame(t, to, status, ReplayCode(row, status), row.output, row.error, Replay))
  }

  function Join(s: State, id: RequestId, spawn: Spawn, t: TaskId): State
    requires t in s.rows
  {
    var replay := ReplayOf(s.rows[t], t, spawn.caller);
    s.(admissions := s.admissions[id := Returned(spawn, t, replay)],
       results := if replay.Some? then s.results + [replay.value] else s.results)
  }

  /** A present but empty key skips the lookup, yet is stored. */
  predicate Looked(spawn: Spawn) {
    spawn.key.Some? && spawn.key.value != ""
  }

  /** Step 1: the idempotency lookup. */
  function Arrive(s: State, id: RequestId, spawn: Spawn): State {
    if id in s.admissions then s
    else
      var found := if Looked(spawn) then FindIdempotent(s, spawn) else None;
      if found.Some? then Join(s, id, spawn, found.value)
      else s.(admissions := s.admissions[id := Missed(spawn)])
  }

  function Settle(s: State, id: RequestId, a: Admission): State {
    s.(admissions := s.admissions[id := a])
  }

  /** Step 3d: the parent's depth, read on its own connection. */
  function Measure(s: State, id: RequestId): State {
    if id !in s.admissions || !s.admissions[id].Missed? then s
    else
      var spawn := s.admissions[id].spawn;
      match spawn.parent
      case None => Settle(s, id, Measured(spawn, 0))
      case Some(p) =>
        var depth := ChainDepth(s.rows, spawn.user, p, MAX_TREE);
        if depth >= s.limits.maxDepth then Settle(s, id, Refused(spawn, SpawnDepthExceeded))
        else Settle(s, id, Measured(spawn, depth))
  }

  /** A generated id: unused, and not guessed in advance by a request naming it as
      its parent. */
  predicate FreshId(s: State, t: TaskId) {
    t !in s.rows && forall id :: id in s.admissions ==> s.admissions[id].spawn.parent != Some(t)
  }

  /** Step 4: the INSERT transaction. */
  function Insert(s: State, id: RequestId, t: TaskId): State {
    if id !in s.admissions || !s.admissions[id].Measured? then s
    else
      var spawn := s.admissions[id].spawn;
      if spawn.parent.Some? && (spawn.parent.value !in s.rows || s.rows[spawn.parent.value].user != spawn.user) then
        Settle(s, id, Refused(spawn, InvalidParentTask))
      else if spawn.key.Some? && FindIdempotent(s, spawn).Some? then
        Settle(s, id, Collided(spawn))
      else if !FreshId(s, t) then s
      else
        var row := Row(spawn.user, spawn.parent, spawn.dest, spawn.caller, spawn.dest, spawn.key,
                       |s.rows|, TaskState.Queued, None, None, None);
        s.(rows := s.rows[t := row],
           events := s.events + [Admitted(t, spawn.caller)],
           admissions := s.admissions[id := Created(spawn, t)])
  }

  /** The unique violation: look the winner up on a fresh connection. */
  function Retry(s: State, id: RequestId): State {
    if id !in s.admissions || !s.admissions[id].Collided? then s
    else
      var spawn := s.admissions[id].spawn;
      var found := FindIdempotent(s, spawn);
      if found.Some? then Join(s, id, spawn, found.value)
      else Settle(s, id, Refused(spawn, InternalError))
  }

  /** Steps 5 and 6: the destination's answer to the NewTask frame. */
  function Answer(s: State, id: RequestId, outcome: AckOutcome, error: Blob): State {
    if id !in s.admissions || !s.admissions[id].Created? then s
    else
      var spawn, t := s.admissions[id].spawn, s.admissions[id].task;
      match outcome
      case Accepted => Settle(AckRow(s, t), id, Returned(spawn, t, None))
      case Disconnected =>
        Settle(FailRow(s, t, TaskStatus.Failed, 503, error), id, Refused(spawn, AgentDisconnected))
      case TimedOutWaiting =>
        Settle(FailRow(s, t, TaskStatus.Failed, 504, error), id, Refused(spawn, AckTimeout))
      case Refusal =>
        Settle(FailRow(s, t, TaskStatus.Failed, 400, error), id, Refused(spawn, Rejected))
      case Broken => Settle(s, id, Refused(spawn, InternalError))
  }

  /** Any refusal before the INSERT: ACL, quota, schema, session checks. */
  function Deny(s: State, id: RequestId, error: AdmitError): State {
    if id in s.admissions && (s.admissions[id].Missed? || s.admissions[id].Measured?) then
      Settle(s, id, Refused(s.admissions[id].spawn, error))
    else s
  }

  // ---------------------------------------------------------------- runs

  datatype Step =
    | SResult(task: TaskId, reporter: AgentId, status: TaskStatus, code: int,
              output: Option<Blob>, error: Option<Blob>)
    | SCancel(task: TaskId, note: Blob)
    | SFail(task: TaskId, timedOut: bool, code: int, failure: Blob)
    | SForceFail(task: TaskId, user: UserId, code: int, failure: Blob)
    | SAsk(id: RequestId, task: TaskId, user: UserId, caller: AgentId, dest: AgentId)
    | SFlip(id: RequestId)
    | SGiveUp(id: RequestId)
    | SArrive(id: RequestId, spawn: Spawn)
    | SMeasure(id: RequestId)
    | SDeny(id: RequestId, why: AdmitError)
    | SInsert(id: RequestId, task: TaskId)
    | SRetry(id: RequestId)
    | SAnswer(id: RequestId, outcome: AckOutcome, failure: Blob)

  function FailureStatus(timedOut: bool): (status: TaskStatus)
    ensures status == TaskStatus.Failed || status == TaskStatus.TimedOut
  {
    if timedOut then TaskStatus.TimedOut else TaskStatus.Failed
  }

  /** Phase A as a step: a refused delegation leaves nothing behind. */
  function Ask(s: State, id: RequestId, t: TaskId, user: UserId, caller: AgentId, dest: AgentId): State {
    if id in s.handoffs then s
    else
      match ValidateHandoff(s, t, user, caller, dest)
      case Err(_) => s
      case Ok(h) => s.(handoffs := s.handoffs[id := h])
  }

  function GiveUp(s: State, id: RequestId): State {
    s.(handoffs := s.handoffs - {id})
  }

  /** Phase C as a step: flipped or refused, the request is over. */
  function Flip(s: State, id: RequestId): State {
    if id !in s.handoffs then s
    else
      match FlipHandoff(s, s.handoffs[id])
      case Err(_) => GiveUp(s, id)
      case Ok(s1) => GiveUp(s1, id)
  }

  function Apply(s: State, step: Step): State {
    match step
    case SResult(t, reporter, status, code, output, error) => CompleteTask(s, t, reporter, status, code, output, error)
    case SCancel(t, note) => CancelRow(s, t, note)
    case SFail(t, timedOut, code, failure) => FailRow(s, t, FailureStatus(timedOut), code, failure)
    case SForceFail(t, user, code, failure) => ForceFail(s, t, user, code, failure)
    case SAsk(id, t, user, caller, dest) => Ask(s, id, t, user, caller, dest)
    case SFlip(id) => Flip(s, id)
    case SGiveUp(id) => GiveUp(s, id)
    case SArrive(id, spawn) => Arrive(s, id, spawn)
    case SMeasure(id) => Measure(s, id)
    case SDeny(id, why) => Deny(s, id, why)
    case SInsert(id, t) => Insert(s, id, t)
    case SRetry(id) => Retry(s, id)
    case SAnswer(id, outcome, failure) => Answer(s, id, outcome, failure)
  }

  function Run(s: State, steps: seq<Step>): State
    decreases |steps|
  {
    if steps == [] then s else Apply(Run(s, steps[..|steps| - 1]), steps[|steps| - 1])
  }

  /** Limits the settings accept. */
  predicate LegalLimits(limits: Limits) {
    1 <= limits.maxHops <= 128 && 1 <= limits.maxDepth <= MAX_TREE
  }

  lemma RunSnoc(s: State, steps: seq<Step>, last: Step)
    ensures Run(s, steps + [last]) == Apply(Run(s, steps), last)
  {
    assert (steps + [last])[..|steps|] == steps;
  }

  lemma RunConcat(s: State, a: seq<Step>, b: seq<Step>)
    ensures Run(s, a + b) == Run(Run(s, a), b)
    decreases |b|
  {
    if b == [] {
      assert a + b == a;
    } else {
      assert (a + b)[..|a + b| - 1] == a + b[..|b| - 1];
      RunConcat(s, a, b[..|b| - 1]);
    }
  }
}
