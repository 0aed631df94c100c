/** Which tasks the disconnect cleanup reaches: fail_inflight_for_agent selects rows by the
    agent a task was first given to, while its documentation speaks of the tasks currently
    assigned to the agent (bp_router/tasks.py). */
module Disconnects {
  import opened Options
  import opened TaskStates
  import opened TaskTable
  import opened TaskTree
  import opened Delegation
  import opened Outcomes

  /** In every run, a live task is selected for its executor exactly when it was never
      handed on; a task selected for an agent is being executed by that agent exactly when
      it was never handed on either. */
  lemma SelectedExactlyWhenNeverHandedOn(limits: Limits, steps: seq<Step>, agent: AgentId, t: TaskId)
    requires LegalLimits(limits)
    ensures var s := Run(Start(limits), steps);
            && (t in ExecutedBy(s, agent) ==> (t in InflightOf(s, agent) <==> HopsOf(s.events, t) == []))
            && (t in InflightOf(s, agent) ==> (t in ExecutedBy(s, agent) <==> HopsOf(s.events, t) == []))
  {
    var s := Run(Start(limits), steps);
    TrailsInEveryRun(limits, steps);
    if t in s.rows {
      assert TrailOk(s, t);
      var trail := Trail(s, t);
      assert trail[0] == s.rows[t].agent && trail[|trail| - 1] == s.rows[t].active;
    }
  }

  /** So the cleanup takes exactly the agent's current tasks if and only if none of the
      live tasks it was first given, or now executes, was ever handed on. */
  lemma CleanupMeetsItsDocumentation(limits: Limits, steps: seq<Step>, agent: AgentId)
    requires LegalLimits(limits)
    ensures var s := Run(Start(limits), steps);
            InflightOf(s, agent) == ExecutedBy(s, agent) <==>
            forall t :: t in InflightOf(s, agent) + ExecutedBy(s, agent) ==> HopsOf(s.events, t) == []
  {
    var s := Run(Start(limits), steps);
    var a, b := InflightOf(s, agent), ExecutedBy(s, agent);
    forall t | t in a + b ensures t in a && t in b <==> HopsOf(s.events, t) == [] {
      SelectedExactlyWhenNeverHandedOn(limits, steps, agent, t);
    }
    SameExactlyWhenShared(s.events, a, b);
  }

  lemma SameExactlyWhenShared(events: seq<Event>, a: set<TaskId>, b: set<TaskId>)
    requires forall t :: t in a + b ==> (t in a && t in b <==> HopsOf(events, t) == [])
    ensures a == b <==> forall t :: t in a + b ==> HopsOf(events, t) == []
  {
    if a == b {
      forall t | t in a + b ensures HopsOf(events, t) == [] { assert t in a && t in b; }
    }
  }

  /** A task nobody handed on yet, delegated once with nothing in between. */
  lemma HandOver(s: State, id: RequestId, t: TaskId, dest: AgentId)
    requires t in s.rows && !s.rows[t].state.Terminal() && id !in s.handoffs && s.limits.maxHops >= 1
    requires HopsOf(s.events, t) == [] && s.rows[t].active == s.rows[t].agent != dest
    ensures var s' := Run(s, [SAsk(id, t, s.rows[t].user, s.rows[t].agent, dest), SFlip(id)]);
            && s'.rows == s.rows[t := s.rows[t].(active := dest)]
            && s'.events == s.events + [Delegated(t, s.rows[t].agent, dest)]
            && s'.results == s.results && s'.admissions == s.admissions && s'.limits == s.limits
  {
    var row := s.rows[t];
    var ask, h := SAsk(id, t, row.user, row.agent, dest), Handoff(t, row.user, row.agent, dest, []);
    assert ValidateHandoff(s, t, row.user, row.agent, dest) == Ok(h);
    RunSnoc(s, [], ask);
    RunSnoc(s, [ask], SFlip(id));
    assert [] + [ask] == [ask] && [ask] + [SFlip(id)] == [ask, SFlip(id)];
  }

  /** A run: agent 10 gives task 100 to agent 11, which hands it to agent 12. Now 12's
      disconnect fails nothing of it, and 11's disconnect fails the task 12 is executing. */
  lemma ExecutorGoesUnnoticed(error: Blob) returns (steps: seq<Step>)
    ensures var s := Run(Start(Limits(1, 1)), steps);
            && 100 in s.rows && s.rows[100].active == 12 && s.rows[100].agent == 11
            && ExecutedBy(s, 12) == {100} && InflightOf(s, 12) == {} && InflightOf(s, 11) == {100}
            && var failed := FailRow(s, 100, TaskStatus.Failed, 503, error);
               failed.rows[100].state == TaskState.Failed && failed.rows[100].active == 12
  {
    var admit := [SArrive(0, Spawn(1, 10, 11, None, None)), SMeasure(0), SInsert(0, 100)];
    var handOver := [SAsk(0, 100, 1, 11, 12), SFlip(0)];
    steps := admit + handOver;
    OneTaskAdmitted(Limits(1, 1), admit);
    var s := Run(Start(Limits(1, 1)), admit);
    assert HopsOf(s.events, 100) == [] by { HopsAppend([], Admitted(100, 10), 100); assert [] + [Admitted(100, 10)] == s.events; }
    HandOver(s, 0, 100, 12);
    RunConcat(Start(Limits(1, 1)), admit, handOver);
  }
}
