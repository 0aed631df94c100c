/** Idempotent admission: concurrent retries of one request never create two tasks. */
module Idempotency {
  import opened Options
  import opened TaskStates
  import opened TaskTable
  import opened TaskHistory
  import opened TaskTree
  import opened Outcomes

  /** The unique constraint on (caller, user, key); NULL keys never conflict. */
  predicate SameKey(a: Row, b: Row) {
    a.user == b.user && a.caller == b.caller && a.key.Some? && a.key == b.key
  }

  /** The row a finished or waiting admission speaks of is the one it asked for. */
  predicate Answers(row: Row, spawn: Spawn) {
    row.user == spawn.user && row.caller == spawn.caller && row.key == spawn.key
  }

  ghost predicate AdmissionOk(s: State, a: Admission) {
    match a
    case Created(spawn, t) => t in s.rows && Answers(s.rows[t], spawn)
    case Returned(spawn, t, replay) =>
      && t in s.rows && Answers(s.rows[t], spawn)
      && (replay.Some? ==> replay == ReplayOf(s.rows[t], t, spawn.caller))
    case Collided(spawn) => exists t :: t in s.rows && Matches(s.rows[t], spawn)
    case _ => true
  }

  ghost predicate KeysInv(s: State) {
    && (forall t, u :: t in s.rows && u in s.rows && t != u ==> !SameKey(s.rows[t], s.rows[u]))
    && (forall id :: id in s.admissions ==> AdmissionOk(s, s.admissions[id]))
  }

  lemma AdmissionStaysOk(s: State, s': State, a: Admission)
    requires AdmissionOk(s, a) && Evolves(s, s')
    ensures AdmissionOk(s', a)
  {
    match a
    case Created(_, t) => assert RowEvolves(s.rows[t], s'.rows[t]);
    case Returned(_, t, replay) =>
      assert RowEvolves(s.rows[t], s'.rows[t]);
      if replay.Some? { StatusRoundTrip(s.rows[t].state, TaskStatus.Failed); }
    case Collided(spawn) =>
      var t :| t in s.rows && Matches(s.rows[t], spawn);
      assert RowEvolves(s.rows[t], s'.rows[t]);
      assert Matches(s'.rows[t], spawn);
    case _ =>
  }

  /** A step that adds no row keeps keys unique; the admissions it changes must be
      correct in the new state. */
  lemma SameRowsKeepKeys(s: State, s': State)
    requires KeysInv(s) && Evolves(s, s') && s'.rows.Keys == s.rows.Keys
    requires forall id :: id in s'.admissions ==>
               (id in s.admissions && s'.admissions[id] == s.admissions[id]) || AdmissionOk(s', s'.admissions[id])
    ensures KeysInv(s')
  {
    forall t, u | t in s'.rows && u in s'.rows && t != u ensures !SameKey(s'.rows[t], s'.rows[u]) {
      assert RowEvolves(s.rows[t], s'.rows[t]) && RowEvolves(s.rows[u], s'.rows[u]);
    }
    forall id | id in s'.admissions ensures AdmissionOk(s', s'.admissions[id]) {
      if id in s.admissions && s'.admissions[id] == s.admissions[id] {
        AdmissionStaysOk(s, s', s.admissions[id]);
      }
    }
  }

  lemma ArriveKeepsKeys(s: State, id: RequestId, spawn: Spawn)
    requires KeysInv(s)
    ensures KeysInv(Arrive(s, id, spawn))
  {
    ArriveEvolves(s, id, spawn);
    SameRowsKeepKeys(s, Arrive(s, id, spawn));
  }

  lemma RetryKeepsKeys(s: State, id: RequestId)
    requires KeysInv(s)
    ensures KeysInv(Retry(s, id))
  {
    RetryEvolves(s, id);
    SameRowsKeepKeys(s, Retry(s, id));
  }

  lemma NewRowKeepsKeys(s: State, s': State, t: TaskId, spawn: Spawn)
    requires KeysInv(s) && Evolves(s, s')
    requires t !in s.rows && s'.rows.Keys == s.rows.Keys + {t} && Answers(s'.rows[t], spawn)
    requires forall u :: u in s.rows ==> !Matches(s.rows[u], spawn)
    requires forall k :: k in s'.admissions ==>
               (k in s.admissions && s'.admissions[k] == s.admissions[k]) || s'.admissions[k] == Created(spawn, t)
    ensures KeysInv(s')
  {
    forall u, w | u in s'.rows && w in s'.rows && u != w ensures !SameKey(s'.rows[u], s'.rows[w]) {
      assert u in s.rows ==> RowEvolves(s.rows[u], s'.rows[u]);
      assert w in s.rows ==> RowEvolves(s.rows[w], s'.rows[w]);
    }
    forall k | k in s'.admissions ensures AdmissionOk(s', s'.admissions[k]) {
      if k in s.admissions && s'.admissions[k] == s.admissions[k] {
        AdmissionStaysOk(s, s', s.admissions[k]);
      }
    }
  }

  lemma InsertKeepsKeys(s: State, id: RequestId, t: TaskId)
    requires KeysInv(s)
    ensures KeysInv(Insert(s, id, t))
  {
    var s' := Insert(s, id, t);
    InsertEvolves(s, id, t);
    if s'.rows != s.rows {
      InsertedRow(s, id, t);
      NewRowKeepsKeys(s, s', t, s.admissions[id].spawn);
    } else {
      NotInserted(s, id, t);
      SameRowsKeepKeys(s, s');
    }
  }

  lemma InsertedRow(s: State, id: RequestId, t: TaskId)
    requires Insert(s, id, t).rows != s.rows
    ensures id in s.admissions && s.admissions[id].Measured?
    ensures var s', spawn := Insert(s, id, t), s.admissions[id].spawn;
            && t !in s.rows && s'.rows.Keys == s.rows.Keys + {t} && Answers(s'.rows[t], spawn)
            && s'.admissions == s.admissions[id := Created(spawn, t)]
            && forall u :: u in s.rows ==> !Matches(s.rows[u], spawn)
  {
    var spawn := s.admissions[id].spawn;
    if spawn.key.Some? { assert FindIdempotent(s, spawn).None?; }
  }

  lemma NotInserted(s: State, id: RequestId, t: TaskId)
    requires Insert(s, id, t).rows == s.rows
    ensures var s' := Insert(s, id, t);
            forall k :: k in s'.admissions ==>
              (k in s.admissions && s'.admissions[k] == s.admissions[k]) || AdmissionOk(s', s'.admissions[k])
  {
    var s' := Insert(s, id, t);
    if id in s.admissions && s.admissions[id].Measured? {
      var spawn := s.admissions[id].spawn;
      if s'.admissions[id] == Collided(spawn) {
        var hit := FindIdempotent(s, spawn).value;
        assert Matches(s.rows[hit], spawn);
      }
    }
  }

  lemma AnswerKeepsKeys(s: State, id: RequestId, outcome: AckOutcome, error: Blob)
    requires KeysInv(s)
    ensures KeysInv(Answer(s, id, outcome, error))
  {
    var s' := Answer(s, id, outcome, error);
    if id in s.admissions && s.admissions[id].Created? {
      var spawn, t := s.admissions[id].spawn, s.admissions[id].task;
      AnswerEvolves(s, id, outcome, error);
      AdmissionStaysOk(s, s', Created(spawn, t));
      var a := AnswerAdmission(s, id, outcome, error);
      AnswerPlanted(s, id, outcome, error);
      SameRowsKeepKeys(s, s');
    }
  }

  lemma AnswerAdmission(s: State, id: RequestId, outcome: AckOutcome, error: Blob) returns (a: Admission)
    requires id in s.admissions && s.admissions[id].Created?
    ensures var s', spawn, t := Answer(s, id, outcome, error), s.admissions[id].spawn, s.admissions[id].task;
            s'.admissions == s.admissions[id := a] && (a.Refused? || a == Returned(spawn, t, None))
  {
    var spawn, t := s.admissions[id].spawn, s.admissions[id].task;
    a := match outcome
      case Accepted => Returned(spawn, t, None)
      case Disconnected => Refused(spawn, AgentDisconnected)
      case TimedOutWaiting => Refused(spawn, AckTimeout)
      case Refusal => Refused(spawn, Rejected)
      case Broken => Refused(spawn, InternalError);
    assert Answer(s, id, outcome, error).admissions == s.admissions[id := a];
  }

  lemma StepKeepsKeys(s: State, step: Step)
    requires KeysInv(s)
    ensures KeysInv(Apply(s, step))
  {
    if step.SArrive? {
      ArriveKeepsKeys(s, step.id, step.spawn);
    } else if step.SRetry? {
      RetryKeepsKeys(s, step.id);
    } else if step.SInsert? {
      InsertKeepsKeys(s, step.id, step.task);
    } else if step.SAnswer? {
      AnswerKeepsKeys(s, step.id, step.outcome, step.failure);
    } else {
      StepEvolves(s, step);
      OtherStepAdmissions(s, step);
      SameRowsKeepKeys(s, Apply(s, step));
    }
  }

  lemma OtherStepAdmissions(s: State, step: Step)
    requires !step.SArrive? && !step.SRetry? && !step.SInsert? && !step.SAnswer?
    ensures var s' := Apply(s, step);
            && s'.rows.Keys == s.rows.Keys
            && forall id :: id in s'.admissions ==>
                 (id in s.admissions && s'.admissions[id] == s.admissions[id])
                 || s'.admissions[id].Measured? || s'.admissions[id].Refused?
  {
    if step.SResult? || step.SCancel? || step.SFail? || step.SForceFail? || step.SFlip? {
      RowStepPlanted(s, step);
      assert Apply(s, step).admissions == s.admissions;
    }
  }

  lemma {:induction false} KeysInEveryRun(limits: Limits, steps: seq<Step>)
    ensures KeysInv(Run(Start(limits), steps))
    decreases |steps|
  {
    if steps != [] {
      KeysInEveryRun(limits, steps[..|steps| - 1]);
      StepKeepsKeys(Run(Start(limits), steps[..|steps| - 1]), steps[|steps| - 1]);
    }
  }

  /** Any number of admissions of one request, interleaved anyhow between their lookup,
      insert and re-lookup: those that return, return the same task, and no other row
      carries the key. The empty key counts too, though its lookup is skipped. */
  lemma OneTaskPerKey(limits: Limits, steps: seq<Step>, a: RequestId, b: RequestId, t: TaskId)
    requires var s := Run(Start(limits), steps);
             && a in s.admissions && s.admissions[a].Returned?
             && b in s.admissions && s.admissions[b].Returned?
             && s.admissions[a].spawn.key.Some?
             && s.admissions[a].spawn.key == s.admissions[b].spawn.key
             && s.admissions[a].spawn.user == s.admissions[b].spawn.user
             && s.admissions[a].spawn.caller == s.admissions[b].spawn.caller
    ensures var s := Run(Start(limits), steps);
            && s.admissions[a].task == s.admissions[b].task
            && s.admissions[a].task in s.rows
            && (t in s.rows && Matches(s.rows[t], s.admissions[a].spawn) ==> t == s.admissions[a].task)
  {
    var s := Run(Start(limits), steps);
    KeysInEveryRun(limits, steps);
    assert AdmissionOk(s, s.admissions[a]) && AdmissionOk(s, s.admissions[b]);
    var x, y := s.admissions[a].task, s.admissions[b].task;
    if x != y { assert SameKey(s.rows[x], s.rows[y]); }
    if t in s.rows && Matches(s.rows[t], s.admissions[a].spawn) && t != x { assert SameKey(s.rows[t], s.rows[x]); }
  }

  /** The re-lookup after a unique violation always finds the winner: the defensive
      re-raise is dead code. */
  lemma CollisionAlwaysResolves(limits: Limits, steps: seq<Step>, id: RequestId)
    requires var s := Run(Start(limits), steps); id in s.admissions && s.admissions[id].Collided?
    ensures Retry(Run(Start(limits), steps), id).admissions[id].Returned?
  {
    KeysInEveryRun(limits, steps);
    var s := Run(Start(limits), steps);
    assert AdmissionOk(s, s.admissions[id]);
  }

  lemma LookupTells(s: State, id: RequestId, step: Step)
    requires step == SRetry(id) || (step.SArrive? && step.id == id && Looked(step.spawn))
    requires id in s.admissions ==> s.admissions[id].Collided?
    requires id in Apply(s, step).admissions && Apply(s, step).admissions[id].Returned?
    ensures var s', a := Apply(s, step), Apply(s, step).admissions[id];
            && a.task in s.rows && s'.rows == s.rows
            && a.replay == ReplayOf(s.rows[a.task], a.task, a.spawn.caller)
            && (a.replay.Some? ==> s'.results == s.results + [a.replay.value])
  {
  }

  /** A retry that finds the row is answered with a replay exactly when the row is
      terminal, and a replay once given stays a true account of the row: status from its
      state, stored code or the default (499 for a router cancel), stored output. */
  lemma ReplayExactlyWhenTerminal(limits: Limits, past: seq<Step>, future: seq<Step>, id: RequestId, step: Step)
    requires LegalLimits(limits)
    requires step == SRetry(id) || (step.SArrive? && step.id == id && Looked(step.spawn))
    requires var s := Run(Start(limits), past);
             && (id in s.admissions ==> s.admissions[id].Collided?)
             && id in Apply(s, step).admissions && Apply(s, step).admissions[id].Returned?
    ensures var s := Run(Start(limits), past);
            var a := Apply(s, step).admissions[id];
            var later := Run(Apply(s, step), future);
            && a.task in s.rows && a.task in later.rows
            && (a.replay.Some? <==> s.rows[a.task].state.Terminal())
            && (a.replay.Some? ==>
                  var row, frame := later.rows[a.task], a.replay.value;
                  && StateFromStatus(frame.status) == row.state
                  && frame.code == (if row.statusCode.Some? then row.statusCode.value else 499)
                  && frame.output == row.output
                  && frame in later.results)
  {
    var s := Run(Start(limits), past);
    LookupTells(s, id, step);
    var s1 := Apply(s, step);
    OutcomesInEveryRun(limits, past);
    RunEvolves(s1, future);
    ReplayStands(s, s1, Run(s1, future), s1.admissions[id]);
  }

  lemma ReplayStands(s: State, s1: State, later: State, a: Admission)
    requires a.Returned? && a.task in s.rows && s1.rows == s.rows
    requires ColumnsOk(s.rows[a.task]) && Evolves(s1, later)
    requires a.replay == ReplayOf(s.rows[a.task], a.task, a.spawn.caller)
    requires a.replay.Some? ==> s1.results == s.results + [a.replay.value]
    ensures a.task in later.rows && (a.replay.Some? <==> s.rows[a.task].state.Terminal())
    ensures a.replay.Some? ==>
              var row, frame := later.rows[a.task], a.replay.value;
              && StateFromStatus(frame.status) == row.state
              && frame.code == (if row.statusCode.Some? then row.statusCode.value else 499)
              && frame.output == row.output
              && frame in later.results
  {
    assert RowEvolves(s1.rows[a.task], later.rows[a.task]);
    StatusRoundTrip(s.rows[a.task].state, TaskStatus.Failed);
    if a.replay.Some? {
      StatusRoundTrip(s.rows[a.task].state, a.replay.value.status);
      assert s1.results[|s.results|] == a.replay.value;
      assert later.results[|s.results|] == a.replay.value;
    }
  }
}
