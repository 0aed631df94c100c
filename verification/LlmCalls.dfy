/** Router-side provider calls: the per-socket map, the per-task index that replaces a scan,
    and the done-callback that prunes both (bp_router/dispatch.py, bp_router/tasks.py,
    bp_router/ws_hub.py). */
module LlmCalls {
  import opened Options

  type Slot = (nat, string)            // (socket, correlation id)

  /** An asyncio task running one provider call. */
  class Call {
    const slot: Slot
    const taskId: Option<string>

    constructor (slot: Slot, taskId: Option<string>)
      ensures this.slot == slot && this.taskId == taskId
    {
      this.slot, this.taskId := slot, taskId;
    }
  }

  datatype State = State(
    created: set<Call>,
    done: set<Call>,                     // finished, whatever the reason
    cleaned: set<Call>,                  // their done-callback has run
    cancelled: set<Call>,                // cancel() was called while they ran
    slots: map<Slot, Call>,              // every socket's llm_tasks
    index: map<string, set<Call>>)       // llm_tasks_by_task_id

  const EMPTY := State({}, {}, {}, {}, map[], map[])

  // ------------------------------------------------------------ steps

  function Bucket(index: map<string, set<Call>>, tid: string): set<Call> {
    if tid in index then index[tid] else {}
  }

  function AddToIndex(index: map<string, set<Call>>, c: Call): map<string, set<Call>> {
    if c.taskId.None? then index else index[c.taskId.value := Bucket(index, c.taskId.value) + {c}]
  }

  /** Discard by identity; drop the key with its last member. */
  function Prune(index: map<string, set<Call>>, c: Call): map<string, set<Call>> {
    if c.taskId.None? || c.taskId.value !in index then index
    else if index[c.taskId.value] - {c} == {} then index - {c.taskId.value}
    else index[c.taskId.value := index[c.taskId.value] - {c}]
  }

  /** A second request on a correlation id is refused while the first call runs. */
  predicate Refused(s: State, slot: Slot) {
    slot in s.slots && s.slots[slot] !in s.done
  }

  function RequestStep(s: State, c: Call): State {
    if Refused(s, c.slot) then s
    else s.(created := s.created + {c}, slots := s.slots[c.slot := c], index := AddToIndex(s.index, c))
  }

  function CleanupStep(s: State, c: Call): State {
    s.(cleaned := s.cleaned + {c},
       slots := if c.slot in s.slots && s.slots[c.slot] == c then s.slots - {c.slot} else s.slots,
       index := Prune(s.index, c))
  }

  function SocketSlots(s: State, socket: nat): set<Slot> {
    set k | k in s.slots && k.0 == socket
  }

  function CallsAt(s: State, keys: set<Slot>): set<Call> {
    set k | k in keys && k in s.slots :: s.slots[k]
  }

  /** Cancel the calls under some slots and forget the slots. */
  function ClearStep(s: State, keys: set<Slot>): State {
    s.(cancelled := s.cancelled + (CallsAt(s, keys) - s.done), slots := s.slots - keys)
  }

  function Indexed(index: map<string, set<Call>>, tids: set<string>): set<Call> {
    set tid, c | tid in tids && tid in index && c in index[tid] :: c
  }

  function AbortStep(s: State, tids: set<string>): State {
    s.(cancelled := s.cancelled + (Indexed(s.index, tids) - s.done))
  }

  datatype Step =
    | Request(call: Call)
    | Finish(call: Call)
    | Cleanup(call: Call)
    | ClearSocket(socket: nat)           // the socket disconnects
    | CancelOne(slot: Slot)              // a Cancel frame names one correlation id
    | Abort(tids: set<string>)           // tasks were cancelled or failed

  function Apply(s: State, step: Step): State {
    match step
    case Request(c) => if c in s.created then s else RequestStep(s, c)
    case Finish(c) => if c in s.created then s.(done := s.done + {c}) else s
    case Cleanup(c) => if c in s.done && c !in s.cleaned then CleanupStep(s, c) else s
    case ClearSocket(socket) => ClearStep(s, SocketSlots(s, socket))
    case CancelOne(slot) => ClearStep(s, {slot})
    case Abort(tids) => AbortStep(s, tids)
  }

  function Run(steps: seq<Step>): State {
    if steps == [] then EMPTY else Apply(Run(steps[..|steps| - 1]), steps[|steps| - 1])
  }

  // ------------------------------------------------------------ the index is exact

  /** The calls of a task whose callback has not run. */
  function Outstanding(s: State, tid: string): set<Call> {
    set c | c in s.created && c.taskId == Some(tid) && c !in s.cleaned
  }

  ghost predicate IndexExact(s: State) {
    && (forall tid :: Bucket(s.index, tid) == Outstanding(s, tid))
    && (forall tid :: tid in s.index ==> s.index[tid] != {})
  }

  /** A call that still runs is reachable under its slot, unless it was already cancelled. */
  ghost predicate NoOrphans(s: State) {
    && s.cleaned <= s.done <= s.created
    && (forall k :: k in s.slots ==> s.slots[k] in s.created && s.slots[k].slot == k)
    && (forall c :: c in s.created && c !in s.done && c !in s.cancelled ==> c.slot in s.slots && s.slots[c.slot] == c)
  }

  lemma RequestExact(s: State, c: Call)
    requires IndexExact(s) && NoOrphans(s) && c !in s.created
    ensures IndexExact(RequestStep(s, c))
  {
    var s1 := RequestStep(s, c);
    if !Refused(s, c.slot) {
      forall tid ensures Bucket(s1.index, tid) == Outstanding(s1, tid) {
        assert Bucket(s.index, tid) == Outstanding(s, tid);
        if c.taskId == Some(tid) {
          assert Outstanding(s1, tid) == Outstanding(s, tid) + {c};
        } else {
          assert Outstanding(s1, tid) == Outstanding(s, tid);
        }
      }
    }
  }

  lemma CleanupExact(s: State, c: Call)
    requires IndexExact(s) && c in s.created
    ensures IndexExact(CleanupStep(s, c))
  {
    var s1 := CleanupStep(s, c);
    forall tid ensures Bucket(s1.index, tid) == Outstanding(s1, tid) {
      assert Bucket(s.index, tid) == Outstanding(s, tid);
      if c.taskId == Some(tid) {
        assert Outstanding(s1, tid) == Outstanding(s, tid) - {c};
      } else {
        assert Outstanding(s1, tid) == Outstanding(s, tid);
      }
    }
  }

  lemma SameExact(s: State, s1: State)
    requires IndexExact(s) && s1.index == s.index && s1.created == s.created && s1.cleaned == s.cleaned
    ensures IndexExact(s1)
  {
    forall tid ensures Bucket(s1.index, tid) == Outstanding(s1, tid) {
      assert Bucket(s.index, tid) == Outstanding(s, tid);
      assert Outstanding(s1, tid) == Outstanding(s, tid);
    }
  }

  lemma StepExact(s: State, step: Step)
    requires IndexExact(s) && NoOrphans(s)
    ensures IndexExact(Apply(s, step))
  {
    match step
    case Request(c) => if c !in s.created { RequestExact(s, c); }
    case Cleanup(c) => if c in s.done && c !in s.cleaned { CleanupExact(s, c); }
    case _ => SameExact(s, Apply(s, step));
  }

  lemma StepKeepsTrack(s: State, step: Step)
    requires NoOrphans(s)
    ensures NoOrphans(Apply(s, step))
  {
    match step
    case ClearSocket(socket) => ClearKeepsTrack(s, SocketSlots(s, socket));
    case CancelOne(slot) => ClearKeepsTrack(s, {slot});
    case _ =>
  }

  lemma ClearKeepsTrack(s: State, keys: set<Slot>)
    requires NoOrphans(s)
    ensures NoOrphans(ClearStep(s, keys))
  {
    var s1 := ClearStep(s, keys);
    forall c | c in s.created && c.slot in keys && c.slot in s.slots && s.slots[c.slot] == c ensures c in CallsAt(s, keys) {
    }
  }

  lemma {:induction false} TrackedInEveryRun(steps: seq<Step>)
    ensures IndexExact(Run(steps)) && NoOrphans(Run(steps))
  {
    if steps == [] {
      forall tid ensures Bucket(EMPTY.index, tid) == Outstanding(EMPTY, tid) {
      }
    } else {
      TrackedInEveryRun(steps[..|steps| - 1]);
      StepExact(Run(steps[..|steps| - 1]), steps[|steps| - 1]);
      StepKeepsTrack(Run(steps[..|steps| - 1]), steps[|steps| - 1]);
    }
  }

  /** What a scan over every call ever created would abort. */
  function Scan(s: State, tids: set<string>): set<Call> {
    set c | c in s.created && c.taskId.Some? && c.taskId.value in tids && c !in s.done
  }

  /** In every run, aborting a set of tasks through the index cancels exactly the calls a
      scan of all calls would, after sockets were cleared and correlation ids reused too;
      no bucket is empty; and the calls a scan of the sockets would miss are already
      cancelled. */
  lemma IndexReplacesScan(steps: seq<Step>, tids: set<string>)
    ensures var s := Run(steps);
            && Indexed(s.index, tids) - s.done == Scan(s, tids)
            && Run(steps + [Abort(tids)]).cancelled == s.cancelled + Scan(s, tids)
            && (forall tid :: tid in s.index ==> s.index[tid] != {})
            && (forall c :: c in Scan(s, tids) && c !in s.cancelled ==> c.slot in s.slots && s.slots[c.slot] == c)
  {
    TrackedInEveryRun(steps);
    IndexedIsScan(Run(steps), tids);
    assert (steps + [Abort(tids)])[..|steps + [Abort(tids)]| - 1] == steps;
  }

  lemma IndexedIsScan(s: State, tids: set<string>)
    requires IndexExact(s) && NoOrphans(s)
    ensures Indexed(s.index, tids) - s.done == Scan(s, tids)
  {
    forall c ensures c in Indexed(s.index, tids) - s.done <==> c in Scan(s, tids) {
      if c in Indexed(s.index, tids) {
        var tid :| tid in tids && tid in s.index && c in s.index[tid];
        assert Bucket(s.index, tid) == Outstanding(s, tid);
      }
      if c in Scan(s, tids) {
        assert Bucket(s.index, c.taskId.value) == Outstanding(s, c.taskId.value);
        assert c in Outstanding(s, c.taskId.value);
      }
    }
  }

  /** Halfway through a bucket: what still ran of the part already visited. */
  ghost predicate Hit(all: set<Call>, rest: set<Call>, finished: set<Call>, hit: set<Call>) {
    && rest <= all && hit <= all
    && forall c :: c in all ==> (c in hit <==> c !in rest && c !in finished)
  }

  lemma HitOne(all: set<Call>, rest: set<Call>, finished: set<Call>, hit: set<Call>, c: Call)
    requires Hit(all, rest, finished, hit) && c in rest
    ensures c !in hit
    ensures Hit(all, rest - {c}, finished, if c in finished then hit else hit + {c})
  {
  }

  lemma HitAll(all: set<Call>, finished: set<Call>, hit: set<Call>)
    requires Hit(all, {}, finished, hit)
    ensures hit == all - finished
  {
  }

  /** The inner loop: what still runs of one task's calls. */
  method RunningIn(all: set<Call>, finished: set<Call>) returns (hit: set<Call>, count: nat)
    ensures hit == all - finished && count == |hit|
  {
    var rest := all;
    hit, count := {}, 0;
    while rest != {}
      invariant Hit(all, rest, finished, hit) && count == |hit|
      decreases rest
    {
      var c :| c in rest;
      HitOne(all, rest, finished, hit, c);
      rest := rest - {c};
      if c !in finished {
        hit, count := hit + {c}, count + 1;
      }
    }
    HitAll(all, finished, hit);
  }

  /** Both loops of _abort_router_side_llm_tasks: the calls to cancel, and their number. */
  method RunningOf(index: map<string, set<Call>>, finished: set<Call>, tids: set<string>)
    returns (hits: set<Call>, count: nat)
    requires Apart(index)
    ensures hits == Indexed(index, tids) - finished && count == |hits|
  {
    ghost var seen: set<string> := {};
    hits, count := {}, 0;
    var todo := tids;
    while todo != {}
      invariant todo !! seen && todo + seen == tids
      invariant hits == Indexed(index, seen) - finished && count == |hits|
      decreases todo
    {
      var tid :| tid in todo;
      var hit, n := RunningIn(Bucket(index, tid), finished);
      OneMoreBucket(index, finished, seen, tid, hits, hit);
      MoveOver(todo, seen, tid);
      count, todo := count + n, todo - {tid};
      seen, hits := seen + {tid}, hits + hit;
    }
    assert seen == tids;
  }

  // ------------------------------------------------------------ the code

  class LlmTracker {
    ghost var created: set<Call>
    var done: set<Call>
    ghost var cleaned: set<Call>
    var cancelled: set<Call>
    var slots: map<Slot, Call>
    var index: map<string, set<Call>>

    ghost function Now(): State
      reads this
    {
      State(created, done, cleaned, cancelled, slots, index)
    }

    ghost predicate Ok()
      reads this
    {
      IndexExact(Now()) && NoOrphans(Now())
    }

    constructor ()
      ensures Ok() && Now() == EMPTY
    {
      created, done, cleaned, cancelled, slots, index := {}, {}, {}, {}, map[], map[];
      new;
      TrackedInEveryRun([]);
    }

    /** _handle_llm_request up to the registration of its callback; None when refused. */
    method Start(slot: Slot, taskId: Option<string>) returns (call: Option<Call>)
      requires Ok()
      modifies this
      ensures Ok() && call.None? == (slot in old(slots) && old(slots)[slot] !in old(done))
      ensures call.None? ==> Now() == old(Now())
      ensures call.Some? ==> fresh(call.value) && call.value.slot == slot && call.value.taskId == taskId
      ensures call.Some? ==> Now() == Apply(old(Now()), Request(call.value))
      ensures call.Some? ==>
                && slots == old(slots)[slot := call.value] && done == old(done) && cancelled == old(cancelled)
                && (taskId.None? ==> index == old(index))
                && (taskId.Some? ==>
                      index == old(index)[taskId.value := (if taskId.value in old(index) then old(index)[taskId.value] else {}) + {call.value}])
    {
      if slot in slots {
        var existing := slots[slot];
        if existing !in done { return None; }
      }
      var c := new Call(slot, taskId);
      assert c !in created;
      RequestExact(Now(), c);
      StepKeepsTrack(Now(), Request(c));
      created := created + {c};
      slots := slots[slot := c];
      if taskId.Some? {
        index := index[taskId.value := (if taskId.value in index then index[taskId.value] else {}) + {c}];
      }
      return Some(c);
    }

    /** The done-callback. */
    method OnDone(c: Call)
      requires Ok() && c in done && c !in cleaned
      modifies this
      ensures Ok() && Now() == Apply(old(Now()), Cleanup(c))
      ensures slots == if c.slot in old(slots) && old(slots)[c.slot] == c then old(slots) - {c.slot} else old(slots)
      ensures forall tid :: tid in index ==> tid in old(index) && index[tid] == old(index)[tid] - {c} != {}
      ensures forall tid :: tid in old(index) && tid !in index ==> old(index)[tid] == {c}
      ensures cancelled == old(cancelled)
    {
      OnlyItsBucket(Now(), c);
      CleanupExact(Now(), c);
      StepKeepsTrack(Now(), Cleanup(c));
      if c.slot in slots && slots[c.slot] == c {
        slots := slots - {c.slot};
      }
      if c.taskId.Some? && c.taskId.value in index {
        var bucket := index[c.taskId.value] - {c};
        if bucket == {} {
          index := index - {c.taskId.value};
        } else {
          index := index[c.taskId.value := bucket];
        }
      }
      cleaned := cleaned + {c};
    }

    /** The part of a Cancel frame that names one correlation id of its socket. */
    method CancelSlot(slot: Slot)
      requires Ok()
      modifies this
      ensures Ok() && Now() == Apply(old(Now()), CancelOne(slot))
      ensures slots == old(slots) - {slot} && index == old(index)
      ensures cancelled == old(cancelled) +
                if slot in old(slots) && old(slots)[slot] !in old(done) then {old(slots)[slot]} else {}
    {
      ClearKeeps(Now(), {slot});
      if slot in slots {
        var c := slots[slot];
        assert CallsAt(Now(), {slot}) == {c};
        slots := slots - {slot};
        if c !in done {
          cancelled := cancelled + {c};
        }
      } else {
        assert CallsAt(Now(), {slot}) == {};
      }
    }

    /** The part of _on_disconnect that cancels every call of a socket and clears its map. */
    method OnDisconnect(socket: nat)
      requires Ok()
      modifies this
      ensures Ok() && Now() == Apply(old(Now()), ClearSocket(socket))
      ensures HungUp(old(Now()), Now(), socket)
    {
      ClearingHangsUp(Now(), socket);
      ClearKeeps(Now(), SocketSlots(Now(), socket));
      var keys := set k | k in slots && k.0 == socket;
      assert keys == SocketSlots(Now(), socket);
      var calls := set k | k in keys && k in slots :: slots[k];
      var hit, n := RunningIn(calls, done);
      cancelled := cancelled + hit;
      slots := slots - keys;
    }

    /** _abort_router_side_llm_tasks: the count is the number of calls it cancelled. */
    method AbortTasks(tids: set<string>) returns (count: nat)
      requires Ok()
      modifies this`cancelled
      ensures Ok() && Now() == Apply(old(Now()), Abort(tids))
      ensures count == |Scan(old(Now()), tids)|
    {
      ghost var before := Now();
      AbortKeeps(before, tids);
      var hits;
      hits, count := RunningOf(index, done, tids);
      cancelled := cancelled + hits;
      assert Now() == AbortStep(before, tids);
    }
  }

  /** The socket's slots are gone, the calls that ran under them are cancelled, and nothing
      else changed. */
  ghost predicate HungUp(s: State, s1: State, socket: nat) {
    && s1 == s.(slots := s1.slots, cancelled := s1.cancelled)
    && (forall k :: k in s1.slots <==> k in s.slots && k.0 != socket)
    && (forall k :: k in s1.slots ==> s1.slots[k] == s.slots[k])
    && s1.cancelled == s.cancelled + (set k | k in s.slots && k.0 == socket && s.slots[k] !in s.done :: s.slots[k])
  }

  lemma ClearingHangsUp(s: State, socket: nat)
    ensures HungUp(s, ClearStep(s, SocketSlots(s, socket)), socket)
  {
    var running := set k | k in s.slots && k.0 == socket && s.slots[k] !in s.done :: s.slots[k];
    assert running == CallsAt(s, SocketSlots(s, socket)) - s.done;
  }

  lemma OnlyItsBucket(s: State, c: Call)
    requires IndexExact(s)
    ensures forall tid :: tid in s.index && c.taskId != Some(tid) ==> s.index[tid] - {c} == s.index[tid] != {}
    ensures forall tid :: tid in s.index ==> s.index[tid] != {}
  {
    forall tid | tid in s.index && c.taskId != Some(tid) ensures s.index[tid] - {c} == s.index[tid] {
      assert Bucket(s.index, tid) == Outstanding(s, tid);
    }
  }

  lemma MoveOver<T>(from: set<T>, to: set<T>, x: T)
    requires x in from && from !! to
    ensures (from - {x}) !! (to + {x}) && (from - {x}) + (to + {x}) == from + to
  {
  }

  lemma ClearKeeps(s: State, keys: set<Slot>)
    requires IndexExact(s) && NoOrphans(s)
    ensures IndexExact(ClearStep(s, keys)) && NoOrphans(ClearStep(s, keys))
  {
    SameExact(s, ClearStep(s, keys));
    ClearKeepsTrack(s, keys);
  }

  lemma AbortKeeps(s: State, tids: set<string>)
    requires IndexExact(s) && NoOrphans(s)
    ensures IndexExact(AbortStep(s, tids)) && NoOrphans(AbortStep(s, tids)) && Apart(s.index)
    ensures Indexed(s.index, tids) - s.done == Scan(s, tids)
  {
    BucketsApart(s);
    IndexedIsScan(s, tids);
    StepExact(s, Abort(tids));
    StepKeepsTrack(s, Abort(tids));
  }

  ghost predicate Apart(index: map<string, set<Call>>) {
    forall t, u :: t in index && u in index && t != u ==> index[t] !! index[u]
  }

  lemma BucketsApart(s: State)
    requires IndexExact(s)
    ensures Apart(s.index)
  {
    forall t, u | t in s.index && u in s.index && t != u ensures s.index[t] !! s.index[u] {
      assert Bucket(s.index, t) == Outstanding(s, t) && Bucket(s.index, u) == Outstanding(s, u);
    }
  }

  lemma OneMoreBucket(index: map<string, set<Call>>, done: set<Call>, seen: set<string>, tid: string,
                      hits: set<Call>, hit: set<Call>)
    requires Apart(index) && tid !in seen
    requires hits == Indexed(index, seen) - done && hit == Bucket(index, tid) - done
    ensures hits + hit == Indexed(index, seen + {tid}) - done
    ensures |hits + hit| == |hits| + |hit|
  {
    IndexedOneMore(index, seen, tid);
    forall c | c in hits ensures c !in hit {
      var t :| t in seen && t in index && c in index[t];
      assert tid in index ==> index[t] !! index[tid];
    }
    forall c ensures c in hits + hit <==> c in Indexed(index, seen + {tid}) - done {
      assert c in Indexed(index, seen + {tid}) <==> c in Indexed(index, seen) || c in Bucket(index, tid);
    }
  }

  lemma IndexedOneMore(index: map<string, set<Call>>, tids: set<string>, tid: string)
    ensures Indexed(index, tids + {tid}) == Indexed(index, tids) + Bucket(index, tid)
  {
  }
}
