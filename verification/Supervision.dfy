/** The MCP supervisor's reconcile loop (bp_mcp_bridge/supervisor.py), with bridges that
    finish, and whose done-callbacks run, whenever the supervisor waits. */
module Supervision {
  import opened Options

  /** A server row: what the bridge is built from, the refresh stamp, and the rest. */
  datatype Row = Row(serverId: string, signature: string, refreshAt: Option<int>, drift: string)

  /** The asyncio task that runs one bridge, and the row it was built from. */
  class BridgeTask {
    const row: Row

    constructor (row: Row)
      ensures this.row == row
    {
      this.row := row;
    }
  }

  datatype Entry = Entry(task: BridgeTask, row: Row)

  /** _refresh_advanced. */
  predicate RefreshAdvanced(prev: Row, next: Row) {
    next.refreshAt.Some? && (prev.refreshAt.None? || next.refreshAt.value > prev.refreshAt.value)
  }

  datatype World = World(
    active: map<string, Entry>,
    tasks: set<BridgeTask>,              // every bridge task ever created
    finished: set<BridgeTask>,
    called: set<BridgeTask>)             // their done-callback has run

  predicate Holds(active: map<string, Entry>, t: BridgeTask) {
    t.row.serverId in active && active[t.row.serverId].task == t
  }

  // ------------------------------------------------------------ what happens meanwhile

  function Finish(w: World, t: BridgeTask): World {
    if t in w.tasks then w.(finished := w.finished + {t}) else w
  }

  /** _on_bridge_done: evict the entry only if this task is still the one in it. */
  function Callback(w: World, t: BridgeTask): World {
    if t !in w.finished then w
    else w.(called := w.called + {t}, active := if Holds(w.active, t) then w.active - {t.row.serverId} else w.active)
  }

  /** Without the supervisor's doing, entries only disappear, each by its own callback. */
  ghost predicate Meanwhile(w: World, w1: World) {
    && w1.tasks == w.tasks && w.finished <= w1.finished && w.called <= w1.called
    && (forall sid :: sid in w1.active ==> sid in w.active && w1.active[sid] == w.active[sid])
    && (forall sid :: sid in w.active && sid !in w1.active ==> w.active[sid].task in w1.called)
  }

  /** The invariant at every instant: a task that has not finished is the one in its slot,
      or the one being stopped, whose slot is empty until it has finished. */
  ghost predicate Sound(w: World, stopping: Option<BridgeTask>) {
    && w.called <= w.finished <= w.tasks
    && (forall sid :: sid in w.active ==>
          var e := w.active[sid];
          && e.task in w.tasks && e.task !in w.called
          && e.task.row.serverId == sid == e.row.serverId && e.task.row.signature == e.row.signature)
    && (forall t :: t in w.tasks && t !in w.finished ==> Holds(w.active, t) || stopping == Some(t))
    && (stopping.Some? ==> stopping.value.row.serverId !in w.active)
  }

  /** At most one unfinished bridge per server. */
  lemma OneBridgePerServer(w: World, stopping: Option<BridgeTask>, t: BridgeTask, u: BridgeTask)
    requires Sound(w, stopping) && t in w.tasks - w.finished && u in w.tasks - w.finished
    requires t.row.serverId == u.row.serverId
    ensures t == u
  {
  }

  lemma FinishStep(w: World, stopping: Option<BridgeTask>, t: BridgeTask)
    requires Sound(w, stopping)
    ensures Sound(Finish(w, t), stopping) && Meanwhile(w, Finish(w, t))
  {
  }

  /** A callback evicts its own task's entry at most, never a successor's. */
  lemma CallbackStep(w: World, stopping: Option<BridgeTask>, t: BridgeTask)
    requires Sound(w, stopping)
    ensures Sound(Callback(w, t), stopping) && Meanwhile(w, Callback(w, t))
    ensures forall sid :: sid in w.active && w.active[sid].task != t ==>
              sid in Callback(w, t).active && Callback(w, t).active[sid] == w.active[sid]
  {
  }

  lemma MeanwhileTransitive(a: World, b: World, c: World)
    requires Meanwhile(a, b) && Meanwhile(b, c)
    ensures Meanwhile(a, c)
  {
  }

  // ------------------------------------------------------------ the goal of a pass

  /** A desired server is served: its entry carries the desired row, and its bridge was
      built from a row with the same configuration. */
  predicate Served(w: World, sid: string, row: Row) {
    sid in w.active && w.active[sid].row == row && w.active[sid].task.row.signature == row.signature
  }

  /** A bridge of the server with the desired configuration finished since `before`, and
      its callback ran. A pass itself never stops such a bridge. */
  ghost predicate EndedSince(before: World, w: World, row: Row) {
    exists t :: t in w.called && t !in before.finished
                && t.row.serverId == row.serverId && t.row.signature == row.signature
  }

  ghost predicate Settled(before: World, w: World, sid: string, row: Row) {
    Served(w, sid, row) || EndedSince(before, w, row)
  }

  ghost predicate AllSettled(before: World, w: World, desired: map<string, Row>, sids: seq<string>) {
    forall i :: 0 <= i < |sids| && sids[i] in desired ==> Settled(before, w, sids[i], desired[sids[i]])
  }

  // ------------------------------------------------------------ the supervisor

  class Supervisor {
    var active: map<string, Entry>
    var tasks: set<BridgeTask>
    var finished: set<BridgeTask>
    var called: set<BridgeTask>
    var signalled: seq<BridgeTask>       // bridges told to refresh, in order

    function Now(): World
      reads this
    {
      World(active, tasks, finished, called)
    }

    constructor ()
      ensures Sound(Now(), None) && Now() == World(map[], {}, {}, {}) && signalled == []
    {
      active, tasks, finished, called, signalled := map[], {}, {}, {}, [];
    }

    /** _on_bridge_done for one finished task. */
    method OnBridgeDone(t: BridgeTask, ghost stopping: Option<BridgeTask>)
      requires Sound(Now(), stopping) && t in finished
      modifies this`active, this`called
      ensures Now() == Callback(old(Now()), t) && Sound(Now(), stopping) && Meanwhile(old(Now()), Now())
    {
      CallbackStep(Now(), stopping, t);
      var sid := t.row.serverId;
      if sid in active && active[sid].task == t {
        active := active - {sid};
      }
      called := called + {t};
    }

    /** An await: any number of bridges finish and any number of callbacks run. */
    method Await(ghost stopping: Option<BridgeTask>)
      requires Sound(Now(), stopping)
      modifies this`active, this`finished, this`called
      ensures Sound(Now(), stopping) && Meanwhile(old(Now()), Now())
    {
      var turns: nat :| 0 <= turns;
      ghost var start := Now();
      for i := 0 to turns
        invariant Sound(Now(), stopping) && Meanwhile(start, Now())
      {
        ghost var before := Now();
        if tasks != {} {
          var t :| t in tasks;
          if t in finished {
            OnBridgeDone(t, stopping);
          } else {
            FinishStep(Now(), stopping, t);
            finished := finished + {t};
          }
          MeanwhileTransitive(start, before, Now());
        }
      }
    }

    /** The request for the listing always yields to the event loop, which runs the callbacks
        already due before it resumes the pass. */
    method ListServers()
      requires Sound(Now(), None)
      modifies this`active, this`finished, this`called
      ensures Sound(Now(), None) && Meanwhile(old(Now()), Now()) && old(finished) <= called
    {
      ghost var start := Now();
      var due := finished;
      while !(due <= called)
        invariant Sound(Now(), None) && Meanwhile(start, Now()) && due <= finished
        decreases due - called
      {
        var t :| t in due && t !in called;
        ghost var before := Now();
        OnBridgeDone(t, None);
        MeanwhileTransitive(start, before, Now());
      }
      ghost var before := Now();
      Await(None);
      MeanwhileTransitive(start, before, Now());
    }

    /** _start. */
    method Start(row: Row)
      requires Sound(Now(), None) && row.serverId !in active
      modifies this`active, this`tasks
      ensures Sound(Now(), None) && Served(Now(), row.serverId, row)
      ensures active == old(active)[row.serverId := active[row.serverId]]
      ensures fresh(active[row.serverId].task) && tasks == old(tasks) + {active[row.serverId].task}
    {
      var t := new BridgeTask(row);
      tasks := tasks + {t};
      active := active[row.serverId := Entry(t, row)];
    }

    /** _stop: forget the entry, cancel its task, and wait until it has finished. */
    method Stop(sid: string)
      requires Sound(Now(), None)
      modifies this`active, this`finished, this`called
      ensures Sound(Now(), None) && sid !in active
      ensures Meanwhile(World(old(active) - {sid}, old(tasks), old(finished), old(called)), Now())
      ensures sid in old(active) ==> old(active[sid].task) in finished
    {
      if sid !in active { return; }
      var t := active[sid].task;
      active := active - {sid};
      ghost var start := Now();
      assert Sound(Now(), Some(t));
      Await(Some(t));
      if t !in finished {
        ghost var before := Now();
        FinishStep(Now(), Some(t), t);
        finished := finished + {t};
        MeanwhileTransitive(start, before, Now());
      }
    }

    /** One iteration of the spawn loop. */
    method ReconcileRow(sid: string, row: Row)
      requires Sound(Now(), None) && row.serverId == sid
      modifies this
      ensures Sound(Now(), None) && Served(Now(), sid, row)
      ensures old(called) <= called && old(finished) <= finished
      ensures forall s :: s != sid && s in active ==> s in old(active) && active[s] == old(active)[s]
      ensures forall s :: s != sid && s in old(active) && s !in active ==> old(active)[s].task in called
      ensures sid in old(active) && old(active)[sid].row.signature == row.signature ==>
                && active[sid].task == old(active)[sid].task
                && var seen := old(active)[sid].row.refreshAt;
                   var advanced := row.refreshAt.Some? && (seen.None? || seen.value < row.refreshAt.value);
                   signalled == old(signalled) + if advanced then [active[sid].task] else []
      ensures sid in old(active) && old(active)[sid].row.signature != row.signature ==> old(active)[sid].task in finished
      ensures sid !in old(active) || old(active)[sid].row.signature != row.signature ==>
                fresh(active[sid].task) && signalled == old(signalled)
    {
      if sid !in active {
        Start(row);
        return;
      }
      var existing := active[sid];
      if existing.row.signature != row.signature {
        Stop(sid);
        Start(row);
        return;
      }
      if RefreshAdvanced(existing.row, row) {
        signalled := signalled + [existing.task];
        active := active[sid := Entry(existing.task, row)];
        return;
      }
      if existing.row != row {
        active := active[sid := Entry(existing.task, row)];
      }
    }

    /** The teardown loop: stop every active server outside `desired`. */
    method RemoveUndesired(order: seq<string>, desired: map<string, Row>)
      requires Sound(Now(), None) && forall sid :: sid in active ==> sid in order
      modifies this`active, this`finished, this`called
      ensures Sound(Now(), None) && old(called) <= called && tasks == old(tasks)
      ensures forall sid :: sid in active ==> sid in desired && sid in old(active) && active[sid] == old(active)[sid]
    {
      for i := 0 to |order|
        invariant Sound(Now(), None) && old(called) <= called
        invariant forall sid :: sid in active ==> sid in old(active) && active[sid] == old(active)[sid]
        invariant forall sid :: sid in active && sid !in desired ==> sid in order[i..]
      {
        if order[i] !in desired {
          Stop(order[i]);
        }
      }
    }

    /** _reconcile_once; None stands for a failed listing. `rows` gives the listing in its
        order, and `order` the active servers in theirs. Afterwards every desired server
        is served, or a bridge of its very configuration finished during the pass; no other
        is active. */
    method ReconcileOnce(listing: Option<map<string, Row>>, rows: seq<string>) returns (done: bool)
      requires Sound(Now(), None)
      requires listing.Some? ==> forall sid :: sid in listing.value ==> sid in rows && listing.value[sid].serverId == sid
      modifies this
      ensures Sound(Now(), None) && done == listing.Some?
      ensures done ==> forall sid :: sid in listing.value ==> Settled(old(Now()), Now(), sid, listing.value[sid])
      ensures done ==> forall sid :: sid in active ==> sid in listing.value
      ensures !done ==> Meanwhile(old(Now()), Now())
    {
      ghost var before := Now();
      ListServers();
      if listing.None? { return false; }
      var desired := listing.value;
      var order := Keys();
      RemoveUndesired(order, desired);
      for i := 0 to |rows|
        invariant Sound(Now(), None) && before.finished <= called
        invariant AllSettled(before, Now(), desired, rows[..i])
        invariant forall sid :: sid in active ==> sid in desired
      {
        assert rows[..i + 1] == rows[..i] + [rows[i]];
        if rows[i] in desired {
          ghost var mid := Now();
          ReconcileRow(rows[i], desired[rows[i]]);
          RowKeepsOthers(before, mid, Now(), desired, rows[..i], rows[i]);
        }
      }
      assert rows[..|rows|] == rows;
      forall sid | sid in desired ensures Settled(before, Now(), sid, desired[sid]) {
        var i :| 0 <= i < |rows| && rows[i] == sid;
      }
      return true;
    }

    /** list(self._active.keys()). */
    method Keys() returns (order: seq<string>)
      ensures forall sid :: sid in active <==> sid in order
    {
      order := [];
      var rest := active.Keys;
      while rest != {}
        invariant rest <= active.Keys && forall sid :: sid in order <==> sid in active && sid !in rest
        decreases rest
      {
        var sid :| sid in rest;
        rest, order := rest - {sid}, order + [sid];
      }
    }

    /** _tear_down_all: nothing stays active and no bridge keeps running. */
    method TearDownAll()
      requires Sound(Now(), None)
      modifies this`active, this`finished, this`called
      ensures Sound(Now(), None) && active == map[] && finished == tasks == old(tasks)
    {
      var order := Keys();
      RemoveUndesired(order, map[]);
      assert active.Keys == {};
    }
  }

  /** Reconciling one row leaves the other desired servers settled. */
  lemma RowKeepsOthers(before: World, w: World, w1: World, desired: map<string, Row>, sids: seq<string>, sid: string)
    requires Sound(w, None) && before.finished <= w.called <= w1.called && AllSettled(before, w, desired, sids)
    requires sid in desired && Served(w1, sid, desired[sid])
    requires forall s :: s != sid && s in w1.active ==> s in w.active && w1.active[s] == w.active[s]
    requires forall s :: s != sid && s in w.active && s !in w1.active ==> w.active[s].task in w1.called
    ensures AllSettled(before, w1, desired, sids + [sid])
  {
    var all := sids + [sid];
    forall i | 0 <= i < |all| && all[i] in desired ensures Settled(before, w1, all[i], desired[all[i]]) {
      var s := all[i];
      if s != sid {
        assert s == sids[i] && Settled(before, w, s, desired[s]);
        if EndedSince(before, w, desired[s]) {
          var t :| t in w.called && t !in before.finished
                   && t.row.serverId == desired[s].serverId && t.row.signature == desired[s].signature;
          assert t in w1.called;
        } else if s !in w1.active {
          assert w.active[s].task in w1.called && w.active[s].task !in before.finished;
        }
      }
    }
  }
}
