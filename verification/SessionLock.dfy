/** The per-session lock of the channels (bp_agents/session_lock.py): refcounted in-process
    locks in front of a Redis key that expires, is renewed, and is released by
    compare-and-delete. */
module SessionLock {
  import opened Options

  type Process = nat
  type GuardId = nat
  /** The random token a guard draws; distinct guards never draw the same one. */
  type Token = GuardId
  type Slot = (Process, string)

  class AsyncLock {
    constructor () {
    }
  }

  // ------------------------------------------------------------ one process's lock table

  /** Keyed by session id within one process, and by (process, session id) for all of them. */
  datatype Locals<K(==)> = Locals(locks: map<K, AsyncLock>, refs: map<K, nat>)

  function Refs<K(==)>(t: Locals<K>, k: K): nat {
    if k in t.refs then t.refs[k] else 0
  }

  /** _acquire_local: get or create the lock, and count one more guard. */
  function AcquireLocal<K(==)>(t: Locals<K>, k: K, created: AsyncLock): Locals<K> {
    Locals(if k in t.locks then t.locks else t.locks[k := created], t.refs[k := Refs(t, k) + 1])
  }

  /** _release_local: count one guard less, and evict the lock with the last. */
  function ReleaseLocal<K(==)>(t: Locals<K>, k: K): Locals<K> {
    if Refs(t, k) <= 1 then Locals(t.locks - {k}, t.refs - {k}) else t.(refs := t.refs[k := Refs(t, k) - 1])
  }

  class SessionLockManager {
    var locks: map<string, AsyncLock>
    var refs: map<string, nat>

    function Now(): Locals<string>
      reads this
    {
      Locals(locks, refs)
    }

    constructor ()
      ensures Now() == Locals(map[], map[])
    {
      locks, refs := map[], map[];
    }

    method Acquire(sid: string) returns (lock: AsyncLock)
      modifies this
      ensures sid in locks && lock == locks[sid] && (sid in old(locks) || fresh(lock))
      ensures Now() == AcquireLocal(old(Now()), sid, lock)
      ensures locks == old(locks)[sid := lock] && (sid in old(locks) ==> lock == old(locks)[sid])
      ensures refs == old(refs)[sid := 1 + if sid in old(refs) then old(refs)[sid] else 0]
    {
      if sid in locks {
        lock := locks[sid];
      } else {
        lock := new AsyncLock();
        locks := locks[sid := lock];
      }
      refs := refs[sid := (if sid in refs then refs[sid] else 0) + 1];
    }

    method Release(sid: string)
      modifies this
      ensures Now() == ReleaseLocal(old(Now()), sid)
      ensures if sid in old(refs) && old(refs)[sid] > 1
              then locks == old(locks) && refs == old(refs)[sid := old(refs)[sid] - 1]
              else locks == old(locks) - {sid} && refs == old(refs) - {sid}
    {
      var n: int := if sid in refs then refs[sid] as int - 1 else -1;
      if n <= 0 {
        refs := refs - {sid};
        locks := locks - {sid};
      } else {
        refs := refs[sid := n];
      }
    }
  }

  // ------------------------------------------------------------ all processes, one Redis

  /** Entered: counted, waiting for the local lock. Polling: holds it, no Redis key yet.
      Inside and Leaving: before and after the `async with` body ends; `open` means Redis
      was unavailable (or absent) and the guard holds the local lock only. */
  datatype Phase = Entered | Polling | Inside(open: bool) | Leaving(open: bool) | Gone

  datatype Guard = Guard(slot: Slot, lock: AsyncLock, phase: Phase)

  /** A Redis key: its value, and the modification count that WATCH compares. */
  datatype Key = Key(value: Option<Token>, version: nat)

  /** A compare-and-act under way: WATCH done, and GET too once `matched`. */
  datatype Cas = Cas(version: nat, matched: bool)

  datatype World = World(
    table: Locals<Slot>,
    held: map<AsyncLock, GuardId>,
    made: set<AsyncLock>,
    guards: map<GuardId, Guard>,
    keys: map<string, Key>,
    cas: map<(GuardId, bool), Cas>,      // (guard, extend)
    lapsed: set<GuardId>)                // guards whose key expired under them

  const EMPTY := World(Locals(map[], map[]), map[], {}, map[], map[], map[], {})

  function KeyOf(w: World, sid: string): Key {
    if sid in w.keys then w.keys[sid] else Key(None, 0)
  }

  predicate InPhase(w: World, g: GuardId, phases: set<Phase>) {
    g in w.guards && w.guards[g].phase in phases
  }

  datatype Step =
    | Enter(g: GuardId, slot: Slot, created: AsyncLock)
    | TakeLocal(g: GuardId)
    | SetNx(g: GuardId)
    | FailOpen(g: GuardId, applied: bool)      // the SET may have been applied all the same
    | BeginExit(g: GuardId)
    | CasWatch(g: GuardId, extend: bool)
    | CasGet(g: GuardId, extend: bool)
    | CasExec(g: GuardId, extend: bool)
    | Expire(sid: string, touches: bool)       // expiry may or may not count as a modification
    | Exit(g: GuardId)

  predicate Enabled(w: World, step: Step) {
    match step
    case Enter(g, slot, created) => g !in w.guards && created !in w.made
    case TakeLocal(g) => InPhase(w, g, {Entered}) && w.guards[g].lock !in w.held
    case SetNx(g) => InPhase(w, g, {Polling})
    case FailOpen(g, _) => InPhase(w, g, {Polling})
    case BeginExit(g) => InPhase(w, g, {Inside(true), Inside(false)})
    case CasWatch(g, extend) => InPhase(w, g, if extend then {Inside(false)} else {Leaving(false)})
    case CasGet(g, extend) => (g, extend) in w.cas && g in w.guards
    case CasExec(g, extend) => (g, extend) in w.cas && w.cas[(g, extend)].matched && g in w.guards
    case Expire(sid, _) => KeyOf(w, sid).value.Some?
    case Exit(g) => InPhase(w, g, {Leaving(true), Leaving(false)})
  }

  function Move(w: World, g: GuardId, phase: Phase): World
    requires g in w.guards
  {
    w.(guards := w.guards[g := w.guards[g].(phase := phase)])
  }

  function WithKey(w: World, sid: string, key: Key): World {
    w.(keys := w.keys[sid := key])
  }

  function EnterStep(w: World, g: GuardId, slot: Slot, created: AsyncLock): World {
    var t := AcquireLocal(w.table, slot, created);
    w.(table := t, made := w.made + {created}, guards := w.guards[g := Guard(slot, t.locks[slot], Entered)])
  }

  /** SET key token NX. */
  function TrySet(w: World, g: GuardId): World
    requires g in w.guards
  {
    var sid := w.guards[g].slot.1;
    var key := KeyOf(w, sid);
    if key.value.None? then WithKey(w, sid, Key(Some(g), key.version + 1)) else w
  }

  /** EXEC: runs only if the key was not modified since WATCH, on whatever it now holds. */
  function ExecStep(w: World, g: GuardId, extend: bool): World
    requires (g, extend) in w.cas && g in w.guards
  {
    var sid := w.guards[g].slot.1;
    var key := KeyOf(w, sid);
    var w1 := w.(cas := w.cas - {(g, extend)});
    if key.version != w.cas[(g, extend)].version || key.value.None? then w1
    else WithKey(w1, sid, Key(if extend then key.value else None, key.version + 1))
  }

  function ExitStep(w: World, g: GuardId): World
    requires g in w.guards
  {
    Move(w, g, Gone).(held := w.held - {w.guards[g].lock}, table := ReleaseLocal(w.table, w.guards[g].slot))
  }

  function Apply(w: World, step: Step): World {
    if !Enabled(w, step) then w
    else
      match step
      case Enter(g, slot, created) => EnterStep(w, g, slot, created)
      case TakeLocal(g) => Move(w, g, Polling).(held := w.held[w.guards[g].lock := g])
      case SetNx(g) =>
        if KeyOf(w, w.guards[g].slot.1).value.None? then Move(TrySet(w, g), g, Inside(false)) else w
      case FailOpen(g, applied) => Move(if applied then TrySet(w, g) else w, g, Inside(true))
      case BeginExit(g) => Move(w, g, Leaving(w.guards[g].phase.open))
      case CasWatch(g, extend) =>
        w.(cas := w.cas[(g, extend) := Cas(KeyOf(w, w.guards[g].slot.1).version, false)])
      case CasGet(g, extend) =>
        if KeyOf(w, w.guards[g].slot.1).value == Some(g)
        then w.(cas := w.cas[(g, extend) := w.cas[(g, extend)].(matched := true)])
        else w.(cas := w.cas - {(g, extend)})
      case CasExec(g, extend) => ExecStep(w, g, extend)
      case Expire(sid, touches) =>
        var key := KeyOf(w, sid);
        WithKey(w, sid, Key(None, if touches then key.version + 1 else key.version))
          .(lapsed := w.lapsed + {key.value.value})
      case Exit(g) => ExitStep(w, g)
  }

  function Run(steps: seq<Step>): World {
    if steps == [] then EMPTY else Apply(Run(steps[..|steps| - 1]), steps[|steps| - 1])
  }

  lemma RunSnoc(steps: seq<Step>, step: Step)
    ensures Run(steps + [step]) == Apply(Run(steps), step)
  {
    assert (steps + [step])[..|steps + [step]| - 1] == steps;
  }

  // ------------------------------------------------------------ local locks

  /** Guards of a session in a process that entered and did not exit, held or waiting. */
  function Present(w: World, slot: Slot): set<GuardId> {
    set g | g in w.guards && w.guards[g].slot == slot && w.guards[g].phase != Gone
  }

  ghost predicate Counted(w: World, slot: Slot) {
    && (slot in w.table.refs <==> slot in w.table.locks)
    && Refs(w.table, slot) == |Present(w, slot)|
    && (slot in w.table.refs ==> Refs(w.table, slot) > 0)
  }

  ghost predicate RefsExact(w: World) {
    forall slot :: Counted(w, slot)
  }

  /** Present guards use the table's lock, and no two slots share one. */
  ghost predicate OneLock(w: World) {
    && (forall g :: g in w.guards && w.guards[g].phase != Gone ==>
          w.guards[g].slot in w.table.locks && w.table.locks[w.guards[g].slot] == w.guards[g].lock)
    && (forall g :: g in w.guards ==> w.guards[g].lock in w.made)
    && (forall s :: s in w.table.locks ==> w.table.locks[s] in w.made)
    && (forall s, r :: s in w.table.locks && r in w.table.locks && s != r ==> w.table.locks[s] != w.table.locks[r])
  }

  predicate Owns(phase: Phase) {
    phase.Polling? || phase.Inside? || phase.Leaving?
  }

  ghost predicate HeldByOwners(w: World) {
    && (forall g :: g in w.guards && Owns(w.guards[g].phase) ==>
          w.guards[g].lock in w.held && w.held[w.guards[g].lock] == g)
    && (forall l :: l in w.held ==>
          w.held[l] in w.guards && Owns(w.guards[w.held[l]].phase) && w.guards[w.held[l]].lock == l)
  }

  ghost predicate LocalOk(w: World) {
    RefsExact(w) && OneLock(w) && HeldByOwners(w)
  }

  /** Steps other than Enter and Exit change nobody's slot, lock or presence. */
  ghost predicate SameGuards(w: World, w1: World) {
    && w1.guards.Keys == w.guards.Keys && w1.table == w.table && w1.made == w.made
    && forall g :: g in w.guards ==>
         && w1.guards[g].slot == w.guards[g].slot && w1.guards[g].lock == w.guards[g].lock
         && (w1.guards[g].phase == Gone <==> w.guards[g].phase == Gone)
  }

  lemma MiddleSame(w: World, step: Step)
    requires !step.Enter? && !step.Exit?
    ensures SameGuards(w, Apply(w, step))
  {
  }

  lemma MiddleRefs(w: World, w1: World)
    requires RefsExact(w) && SameGuards(w, w1)
    ensures RefsExact(w1)
  {
    forall slot ensures Counted(w1, slot) {
      assert Counted(w, slot);
      assert Present(w1, slot) == Present(w, slot);
    }
  }

  lemma MiddleHeld(w: World, step: Step)
    requires OneLock(w) && HeldByOwners(w) && !step.Enter? && !step.Exit?
    ensures HeldByOwners(Apply(w, step))
  {
    if !step.TakeLocal? {
      QuietMove(w, step);
    }
  }

  /** Only TakeLocal makes an owner of a guard. */
  lemma QuietMove(w: World, step: Step)
    requires HeldByOwners(w) && !step.Enter? && !step.Exit? && !step.TakeLocal?
    ensures HeldByOwners(Apply(w, step))
  {
    MiddleSame(w, step);
    var w1 := Apply(w, step);
    assert w1.held == w.held;
    assert forall g :: g in w.guards ==> (Owns(w1.guards[g].phase) <==> Owns(w.guards[g].phase));
  }

  lemma EnterRefs(w: World, g: GuardId, slot: Slot, created: AsyncLock)
    requires RefsExact(w) && g !in w.guards
    ensures RefsExact(EnterStep(w, g, slot, created))
  {
    var w1 := EnterStep(w, g, slot, created);
    forall s ensures Counted(w1, s) {
      assert Counted(w, s);
      if s == slot {
        assert Present(w1, s) == Present(w, s) + {g};
      } else {
        assert Present(w1, s) == Present(w, s);
      }
    }
  }

  lemma EnterLocks(w: World, g: GuardId, slot: Slot, created: AsyncLock)
    requires OneLock(w) && HeldByOwners(w) && g !in w.guards && created !in w.made
    ensures OneLock(EnterStep(w, g, slot, created)) && HeldByOwners(EnterStep(w, g, slot, created))
  {
  }

  lemma ExitRefs(w: World, g: GuardId)
    requires RefsExact(w) && g in w.guards && w.guards[g].phase != Gone
    ensures RefsExact(ExitStep(w, g))
  {
    var w1, slot := ExitStep(w, g), w.guards[g].slot;
    forall s ensures Counted(w1, s) {
      assert Counted(w, s);
      if s == slot {
        assert g in Present(w, s);
        assert Present(w1, s) == Present(w, s) - {g};
      } else {
        assert Present(w1, s) == Present(w, s);
      }
    }
  }

  lemma ExitLocks(w: World, g: GuardId)
    requires LocalOk(w) && g in w.guards && w.guards[g].phase.Leaving?
    ensures OneLock(ExitStep(w, g)) && HeldByOwners(ExitStep(w, g))
  {
    var w1 := ExitStep(w, g);
    ExitRefs(w, g);
    forall f | f in w1.guards && w1.guards[f].phase != Gone ensures w1.guards[f].slot in w1.table.locks {
      assert Counted(w1, w1.guards[f].slot);
      assert f in Present(w1, w1.guards[f].slot);
    }
  }

  lemma LocalStep(w: World, step: Step)
    requires LocalOk(w)
    ensures LocalOk(Apply(w, step))
  {
    if step.Enter? && Enabled(w, step) {
      EnterRefs(w, step.g, step.slot, step.created);
      EnterLocks(w, step.g, step.slot, step.created);
    } else if step.Exit? && Enabled(w, step) {
      ExitRefs(w, step.g);
      ExitLocks(w, step.g);
    } else if !step.Enter? && !step.Exit? {
      MiddleSame(w, step);
      MiddleRefs(w, Apply(w, step));
      MiddleHeld(w, step);
    }
  }

  lemma {:induction false} LocalInEveryRun(steps: seq<Step>)
    ensures LocalOk(Run(steps))
  {
    if steps == [] {
      forall slot ensures Counted(EMPTY, slot) {
        assert Present(EMPTY, slot) == {};
      }
    } else {
      LocalInEveryRun(steps[..|steps| - 1]);
      LocalStep(Run(steps[..|steps| - 1]), steps[|steps| - 1]);
    }
  }

  /** In every run, all guards of a session in a process that entered and did not exit
      share the one lock object the table holds, and the refcount is their number, so
      eviction never splits them. */
  lemma PresentGuardsShareOneLock(steps: seq<Step>, g: GuardId)
    requires g in Run(steps).guards && Run(steps).guards[g].phase != Gone
    ensures var w, slot := Run(steps), Run(steps).guards[g].slot;
            && slot in w.table.refs && w.table.refs[slot] == |Present(w, slot)|
            && slot in w.table.locks
            && forall f :: f in Present(w, slot) ==> w.guards[f].lock == w.table.locks[slot]
  {
    LocalInEveryRun(steps);
    var w := Run(steps);
    assert Counted(w, w.guards[g].slot);
  }

  /** Within a process exclusion needs no Redis, expired keys and failures included. */
  lemma OneInsidePerProcess(steps: seq<Step>, f: GuardId, g: GuardId)
    requires f in Run(steps).guards && Owns(Run(steps).guards[f].phase)
    requires g in Run(steps).guards && Owns(Run(steps).guards[g].phase)
    requires Run(steps).guards[f].slot == Run(steps).guards[g].slot
    ensures f == g
  {
    LocalInEveryRun(steps);
  }

  // ------------------------------------------------------------ the Redis key

  /** A compare-and-act that could still run finds its own token or nothing. */
  ghost predicate CasSafe(w: World) {
    forall c :: c in w.cas ==> CasSafeAt(w, c)
  }

  ghost predicate KeysOwned(w: World) {
    forall sid :: KeyOf(w, sid).value.Some? ==>
      && KeyOf(w, sid).value.value in w.guards && w.guards[KeyOf(w, sid).value.value].slot.1 == sid
      && w.guards[KeyOf(w, sid).value.value].phase !in {Entered, Polling}
  }

  /** A guard inside that neither failed open nor saw its key expire is the key's owner. */
  ghost predicate InsideOwns(w: World) {
    forall g :: InPhase(w, g, {Inside(false)}) && g !in w.lapsed ==> KeyOf(w, w.guards[g].slot.1).value == Some(g)
  }

  ghost predicate RedisOk(w: World) {
    CasSafe(w) && KeysOwned(w) && InsideOwns(w)
  }

  lemma ExecOnlyOwn(w: World, g: GuardId, extend: bool)
    requires CasSafe(w) && Enabled(w, CasExec(g, extend))
    ensures forall sid :: KeyOf(ExecStep(w, g, extend), sid) != KeyOf(w, sid) ==>
              && KeyOf(w, sid).value == Some(g)
              && KeyOf(ExecStep(w, g, extend), sid).value == if extend then Some(g) else None
  {
  }

  /** A compare-and-act survives any key change that counts as a modification. */
  ghost predicate KeyMoves(w: World, w1: World) {
    forall sid :: KeyOf(w1, sid).version > KeyOf(w, sid).version || KeyOf(w1, sid) == KeyOf(w, sid)
                  || KeyOf(w1, sid) == Key(None, KeyOf(w, sid).version)
  }

  lemma StepMovesKeys(w: World, step: Step)
    ensures KeyMoves(w, Apply(w, step))
  {
  }

  ghost predicate CasSafeAt(w: World, c: (GuardId, bool))
    requires c in w.cas
  {
    && c.0 in w.guards
    && (c.1 || InPhase(w, c.0, {Leaving(true), Leaving(false), Gone}))
    && w.cas[c].version <= KeyOf(w, w.guards[c.0].slot.1).version
    && (w.cas[c].matched && w.cas[c].version == KeyOf(w, w.guards[c.0].slot.1).version ==>
          KeyOf(w, w.guards[c.0].slot.1).value in {None, Some(c.0)})
  }

  lemma CasSafeKept(w: World, w1: World, c: (GuardId, bool))
    requires c in w.cas && c in w1.cas && w1.cas[c] == w.cas[c] && CasSafeAt(w, c) && KeyMoves(w, w1)
    requires c.0 in w1.guards && w1.guards[c.0].slot == w.guards[c.0].slot
    requires w.guards[c.0].phase in {Leaving(true), Leaving(false), Gone} ==>
               w1.guards[c.0].phase in {Leaving(true), Leaving(false), Gone}
    ensures CasSafeAt(w1, c)
  {
    var sid := w.guards[c.0].slot.1;
    assert KeyOf(w1, sid).version > KeyOf(w, sid).version || KeyOf(w1, sid) == KeyOf(w, sid)
           || KeyOf(w1, sid) == Key(None, KeyOf(w, sid).version);
  }

  lemma CasSafeStep(w: World, step: Step)
    requires RedisOk(w)
    ensures CasSafe(Apply(w, step))
  {
    var w1 := Apply(w, step);
    forall c | c in w1.cas ensures CasSafeAt(w1, c) {
      if c in w.cas && w1.cas[c] == w.cas[c] {
        assert CasSafeAt(w, c);
        StepMovesKeys(w, step);
        StepKeepsSlots(w, step);
        CasSafeKept(w, w1, c);
      } else {
        if c in w.cas { assert CasSafeAt(w, c); }
        CasSafeNew(w, step, c);
      }
    }
  }

  /** A compare-and-act that this step began or advanced. */
  lemma CasSafeNew(w: World, step: Step, c: (GuardId, bool))
    requires c in Apply(w, step).cas && (c in w.cas ==> CasSafeAt(w, c) && Apply(w, step).cas[c] != w.cas[c])
    ensures CasSafeAt(Apply(w, step), c)
  {
    assert step == CasWatch(c.0, c.1) || step == CasGet(c.0, c.1);
  }

  lemma StepKeepsSlots(w: World, step: Step)
    ensures forall g :: g in w.guards ==>
              && g in Apply(w, step).guards && Apply(w, step).guards[g].slot == w.guards[g].slot
              && (w.guards[g].phase in {Leaving(true), Leaving(false), Gone} ==>
                    Apply(w, step).guards[g].phase in {Leaving(true), Leaving(false), Gone})
              && (w.guards[g].phase !in {Entered, Polling} ==> Apply(w, step).guards[g].phase !in {Entered, Polling})
  {
  }

  lemma KeysOwnedStep(w: World, step: Step)
    requires RedisOk(w)
    ensures KeysOwned(Apply(w, step))
  {
    var w1 := Apply(w, step);
    StepKeepsSlots(w, step);
    forall sid | KeyOf(w1, sid).value.Some?
      ensures var g := KeyOf(w1, sid).value.value;
              g in w1.guards && w1.guards[g].slot.1 == sid && w1.guards[g].phase !in {Entered, Polling}
    {
      if KeyOf(w1, sid).value == KeyOf(w, sid).value {
        assert KeyOf(w, sid).value.value in w.guards;
      }
    }
  }

  lemma InsideOwnsStep(w: World, step: Step)
    requires RedisOk(w)
    ensures InsideOwns(Apply(w, step))
  {
    if Enabled(w, step) && step.CasExec? { ExecOnlyOwn(w, step.g, step.extend); }
  }

  lemma {:induction false} RedisInEveryRun(steps: seq<Step>)
    ensures RedisOk(Run(steps))
  {
    if steps != [] {
      var before := Run(steps[..|steps| - 1]);
      RedisInEveryRun(steps[..|steps| - 1]);
      CasSafeStep(before, steps[|steps| - 1]);
      KeysOwnedStep(before, steps[|steps| - 1]);
      InsideOwnsStep(before, steps[|steps| - 1]);
    }
  }

  /** Renewals and releases never extend or delete a foreign holder's key, however late
      their EXEC arrives: any step of guard g's compare-and-act that changes a key finds
      g's own token in it. */
  lemma NeverTouchesForeignKeys(steps: seq<Step>, g: GuardId, extend: bool, sid: string)
    requires KeyOf(Run(steps + [CasExec(g, extend)]), sid) != KeyOf(Run(steps), sid)
    ensures KeyOf(Run(steps), sid).value == Some(g)
    ensures KeyOf(Run(steps + [CasExec(g, extend)]), sid).value == if extend then Some(g) else None
  {
    RunSnoc(steps, CasExec(g, extend));
    RedisInEveryRun(steps);
    if Enabled(Run(steps), CasExec(g, extend)) { ExecOnlyOwn(Run(steps), g, extend); }
  }

  /** The main result: across all processes at most one guard of a session is inside, of
      those that did not fail open and whose key did not expire under them. */
  lemma OneInsideAnywhere(steps: seq<Step>, f: GuardId, g: GuardId)
    requires InPhase(Run(steps), f, {Inside(false)}) && f !in Run(steps).lapsed
    requires InPhase(Run(steps), g, {Inside(false)}) && g !in Run(steps).lapsed
    requires Run(steps).guards[f].slot.1 == Run(steps).guards[g].slot.1
    ensures f == g
  {
    RedisInEveryRun(steps);
  }

  lemma NothingLapsesStep(w: World, step: Step)
    requires !step.Expire? && !step.FailOpen? && w.lapsed == {}
    requires forall g :: g in w.guards ==> w.guards[g].phase !in {Inside(true), Leaving(true)}
    ensures Apply(w, step).lapsed == {}
    ensures forall g :: g in Apply(w, step).guards ==> Apply(w, step).guards[g].phase !in {Inside(true), Leaving(true)}
  {
  }

  lemma {:induction false} NothingLapsed(steps: seq<Step>)
    requires forall i :: 0 <= i < |steps| ==> !steps[i].Expire? && !steps[i].FailOpen?
    ensures Run(steps).lapsed == {}
    ensures forall g :: g in Run(steps).guards ==> Run(steps).guards[g].phase !in {Inside(true), Leaving(true)}
  {
    if steps != [] {
      var init, step := steps[..|steps| - 1], steps[|steps| - 1];
      NothingLapsed(init);
      NothingLapsesStep(Run(init), step);
    }
  }

  /** With no expiry and no failure to reach Redis in the run, exclusion is absolute. */
  lemma ExclusiveWithoutLapses(steps: seq<Step>, f: GuardId, g: GuardId)
    requires forall i :: 0 <= i < |steps| ==> !steps[i].Expire? && !steps[i].FailOpen?
    requires f in Run(steps).guards && Run(steps).guards[f].phase.Inside?
    requires g in Run(steps).guards && Run(steps).guards[g].phase.Inside?
    requires Run(steps).guards[f].slot.1 == Run(steps).guards[g].slot.1
    ensures f == g
  {
    NothingLapsed(steps);
    var w := Run(steps);
    assert w.guards[f].phase == Inside(false) by {
      assert w.guards[f].phase == Inside(w.guards[f].phase.open);
    }
    assert w.guards[g].phase == Inside(false) by {
      assert w.guards[g].phase == Inside(w.guards[g].phase.open);
    }
    OneInsideAnywhere(steps, f, g);
  }

  lemma EnterAlone(w: World, g: GuardId, slot: Slot, created: AsyncLock)
    requires g !in w.guards && created !in w.made && slot !in w.table.locks && KeyOf(w, slot.1).value.None?
    requires forall l :: l in w.held ==> l in w.made
    ensures var w3 := Apply(Apply(Apply(w, Enter(g, slot, created)), TakeLocal(g)), SetNx(g));
            && w3.guards == w.guards[g := Guard(slot, created, Inside(false))]
            && KeyOf(w3, slot.1).value == Some(g)
            && w3.made == w.made + {created} && w3.table.locks == w.table.locks[slot := created]
            && w3.held == w.held[created := g]
  {
    var w1 := Apply(w, Enter(g, slot, created));
    assert w1.guards[g] == Guard(slot, created, Entered) && w1.held == w.held;
    var w2 := Apply(w1, TakeLocal(g));
    assert w2.guards[g] == Guard(slot, created, Polling);
  }

  /** The condition is needed: once a key lapses, two processes can be inside together. */
  lemma LapseAdmitsTwo(sid: string, k: AsyncLock, l: AsyncLock) returns (steps: seq<Step>)
    requires k != l
    ensures InPhase(Run(steps), 0, {Inside(false)}) && InPhase(Run(steps), 1, {Inside(false)})
    ensures Run(steps).guards[0].slot.1 == Run(steps).guards[1].slot.1 == sid
  {
    EnterAlone(EMPTY, 0, (0, sid), k);
    RunSnoc([], Enter(0, (0, sid), k));
    RunSnoc([Enter(0, (0, sid), k)], TakeLocal(0));
    var three := [Enter(0, (0, sid), k), TakeLocal(0), SetNx(0)];
    assert three == [Enter(0, (0, sid), k), TakeLocal(0)] + [SetNx(0)];
    RunSnoc([Enter(0, (0, sid), k), TakeLocal(0)], SetNx(0));
    var four := three + [Expire(sid, false)];
    RunSnoc(three, Expire(sid, false));
    EnterAlone(Run(four), 1, (1, sid), l);
    var five := four + [Enter(1, (1, sid), l)];
    RunSnoc(four, Enter(1, (1, sid), l));
    RunSnoc(five, TakeLocal(1));
    steps := five + [TakeLocal(1)] + [SetNx(1)];
    RunSnoc(five + [TakeLocal(1)], SetNx(1));
  }

  // ------------------------------------------------------------ when a second holder can enter

  /** Inside with its own key in Redis: neither failed open nor lapsed. */
  predicate Holder(w: World, g: GuardId) {
    InPhase(w, g, {Inside(false)}) && g !in w.lapsed
  }

  lemma LapsedStep(w: World, step: Step)
    requires KeysOwned(w) && w.lapsed <= w.guards.Keys
    ensures Apply(w, step).lapsed <= Apply(w, step).guards.Keys
  {
    StepKeepsSlots(w, step);
  }

  lemma {:induction false} LapsedAreGuards(steps: seq<Step>)
    ensures Run(steps).lapsed <= Run(steps).guards.Keys
  {
    if steps != [] {
      LapsedAreGuards(steps[..|steps| - 1]);
      RedisInEveryRun(steps[..|steps| - 1]);
      LapsedStep(Run(steps[..|steps| - 1]), steps[|steps| - 1]);
    }
  }

  /** A guard of another process gets the key once it is free. */
  lemma EntersFree(past: seq<Step>, f: GuardId, slot: Slot, created: AsyncLock)
    requires f !in Run(past).guards && created !in Run(past).made && slot !in Run(past).table.locks
    requires KeyOf(Run(past), slot.1).value.None?
    ensures var w, w1 := Run(past), Run(past + [Enter(f, slot, created), TakeLocal(f), SetNx(f)]);
            && w1.guards == w.guards[f := Guard(slot, created, Inside(false))] && w1.lapsed == w.lapsed
  {
    var one, two := past + [Enter(f, slot, created)], past + [Enter(f, slot, created), TakeLocal(f)];
    LocalInEveryRun(past);
    assert forall l :: l in Run(past).held ==> l in Run(past).made;
    EnterAlone(Run(past), f, slot, created);
    RunSnoc(past, Enter(f, slot, created));
    assert two == one + [TakeLocal(f)];
    RunSnoc(one, TakeLocal(f));
    assert past + [Enter(f, slot, created), TakeLocal(f), SetNx(f)] == two + [SetNx(f)];
    RunSnoc(two, SetNx(f));
  }

  /** From any reachable state, whatever Redis holds, a guard of another process can come
      to hold the session's key, with no guard failing open and everyone else where they
      were: the key has to expire first, if there is one. */
  lemma SecondGuardEnters(past: seq<Step>, f: GuardId, slot: Slot, created: AsyncLock) returns (more: seq<Step>)
    requires f !in Run(past).guards && created !in Run(past).made && slot !in Run(past).table.locks
    ensures forall step :: step in more ==> !step.FailOpen?
    ensures var w, w1 := Run(past), Run(past + more);
            && Holder(w1, f) && w1.guards == w.guards[f := w1.guards[f]] && w1.guards[f].slot == slot
            && w1.lapsed == w.lapsed + (if KeyOf(w, slot.1).value.Some? then {KeyOf(w, slot.1).value.value} else {})
  {
    LapsedAreGuards(past);
    RedisInEveryRun(past);
    var key := KeyOf(Run(past), slot.1);
    var entry := [Enter(f, slot, created), TakeLocal(f), SetNx(f)];
    if key.value.None? {
      more := entry;
      EntersFree(past, f, slot, created);
    } else {
      more := [Expire(slot.1, false)] + entry;
      RunSnoc(past, Expire(slot.1, false));
      EntersFree(past + [Expire(slot.1, false)], f, slot, created);
      assert past + more == past + [Expire(slot.1, false)] + entry;
    }
  }

  /** A continuation in which nobody fails open, and g stays where it is and as much the
      holder of its key as it was. */
  ghost predicate Undisturbed(past: seq<Step>, more: seq<Step>, g: GuardId) {
    && (forall i :: 0 <= i < |more| ==> !more[i].FailOpen?)
    && g in Run(past).guards && g in Run(past + more).guards
    && Run(past + more).guards[g] == Run(past).guards[g]
    && (Holder(Run(past + more), g) <==> Holder(Run(past), g))
  }

  /** Exclusion across processes fails exactly for guards that failed open or lapsed: while
      g is inside and nothing more happens to it, a guard of another process can come to
      hold the session's key if and only if g is not its holder. */
  lemma SecondHolderExactlyWhen(past: seq<Step>, g: GuardId, f: GuardId, p: Process, created: AsyncLock)
    requires g in Run(past).guards && Run(past).guards[g].phase.Inside?
    requires f !in Run(past).guards && created !in Run(past).made && (p, Run(past).guards[g].slot.1) !in Run(past).table.locks
    ensures Run(past).guards[g].slot.0 != p
    ensures !Holder(Run(past), g) <==>
            exists more :: Undisturbed(past, more, g) && Holder(Run(past + more), f)
                           && Run(past + more).guards[f].slot == (p, Run(past).guards[g].slot.1)
  {
    LocalInEveryRun(past);
    var w := Run(past);
    var slot := (p, w.guards[g].slot.1);
    if Holder(w, g) {
      forall more | Undisturbed(past, more, g) && Holder(Run(past + more), f)
        ensures Run(past + more).guards[f].slot != slot
      {
        if Run(past + more).guards[f].slot == slot { OneInsideAnywhere(past + more, f, g); }
      }
    } else {
      var more := SecondGuardEnters(past, f, slot, created);
      assert forall i :: 0 <= i < |more| ==> more[i] in more;
      assert Undisturbed(past, more, g);
    }
  }

  /** A run without any expiry: a guard that could not reach Redis is inside, and so is
      another that could. */
  lemma FailOpenAdmitsTwo(sid: string, k: AsyncLock, l: AsyncLock) returns (steps: seq<Step>)
    requires k != l
    ensures forall i :: 0 <= i < |steps| ==> !steps[i].Expire?
    ensures InPhase(Run(steps), 0, {Inside(true)}) && InPhase(Run(steps), 1, {Inside(false)})
    ensures Run(steps).guards[0].slot.1 == Run(steps).guards[1].slot.1 == sid
  {
    var past := [Enter(0, (0, sid), k), TakeLocal(0), FailOpen(0, false)];
    RunSnoc([], Enter(0, (0, sid), k));
    RunSnoc([Enter(0, (0, sid), k)], TakeLocal(0));
    assert past == [Enter(0, (0, sid), k), TakeLocal(0)] + [FailOpen(0, false)];
    assert [] + [Enter(0, (0, sid), k)] == [Enter(0, (0, sid), k)];
    assert [Enter(0, (0, sid), k)] + [TakeLocal(0)] == [Enter(0, (0, sid), k), TakeLocal(0)];
    RunSnoc([Enter(0, (0, sid), k), TakeLocal(0)], FailOpen(0, false));
    var w1 := Apply(EMPTY, Enter(0, (0, sid), k));
    var w2 := Apply(w1, TakeLocal(0));
    assert w2.guards[0] == Guard((0, sid), k, Polling) && w2.keys == map[];
    EntersFree(past, 1, (1, sid), l);
    steps := past + [Enter(1, (1, sid), l), TakeLocal(1), SetNx(1)];
  }

  // ------------------------------------------------------------ what a guard leaves behind

  /** Renewing or releasing a key that is its own, undisturbed, works: a renewal keeps the
      token, a release removes it. */
  lemma OwnKeyIsActedOn(steps: seq<Step>, g: GuardId, extend: bool)
    requires Enabled(Run(steps), CasWatch(g, extend)) && KeyOf(Run(steps), Run(steps).guards[g].slot.1).value == Some(g)
    ensures var w := Run(steps);
            var w1 := Run(steps + [CasWatch(g, extend), CasGet(g, extend), CasExec(g, extend)]);
            && w1.guards == w.guards && w1.table == w.table && w1.held == w.held
            && KeyOf(w1, w.guards[g].slot.1) == Key(if extend then Some(g) else None, KeyOf(w, w.guards[g].slot.1).version + 1)
  {
    var one := steps + [CasWatch(g, extend)];
    var two := one + [CasGet(g, extend)];
    RunSnoc(steps, CasWatch(g, extend));
    RunSnoc(one, CasGet(g, extend));
    RunSnoc(two, CasExec(g, extend));
    assert steps + [CasWatch(g, extend), CasGet(g, extend), CasExec(g, extend)] == two + [CasExec(g, extend)];
    var w2 := Run(two);
    assert w2.cas[(g, extend)] == Cas(KeyOf(Run(steps), Run(steps).guards[g].slot.1).version, true);
  }

  /** A guard that exits frees the local lock: one that waits for it in the same process
      can take it at once, and does so as the same session's only owner. */
  lemma ExitHandsOver(steps: seq<Step>, g: GuardId, f: GuardId)
    requires Enabled(Run(steps), Exit(g)) && InPhase(Run(steps), f, {Entered})
    requires Run(steps).guards[f].slot == Run(steps).guards[g].slot
    ensures !Enabled(Run(steps), TakeLocal(f)) && Enabled(Run(steps + [Exit(g)]), TakeLocal(f))
    ensures InPhase(Run(steps + [Exit(g)] + [TakeLocal(f)]), f, {Polling})
  {
    LocalInEveryRun(steps);
    RunSnoc(steps, Exit(g));
    RunSnoc(steps + [Exit(g)], TakeLocal(f));
  }

  // ------------------------------------------------------------ _cas against interference

  /** Anyone else's effect on the key: set, deleted, extended, expired, or nothing. Writes
      count as modifications; expiry may not. */
  predicate Interferes(before: Key, after: Key) {
    after.version > before.version || after == before || after == Key(None, before.version)
  }

  class RedisKey {
    var key: Key

    constructor ()
      ensures key == Key(None, 0)
    {
      key := Key(None, 0);
    }

    method Others()
      modifies this
      ensures Interferes(old(key), key)
    {
      assert Interferes(key, key);
      var k: Key :| Interferes(key, k);
      key := k;
    }

    /** _cas: WATCH, GET, MULTI/EXEC with arbitrary interference at each await. When EXEC
        runs, the key holds our token or has expired; it is never anyone else's. It runs
        exactly if GET found our token and nothing modified or removed the key since WATCH. */
    method CompareAndAct(token: Token, extend: bool)
      returns (ran: bool, atExec: Key, ghost atWatch: Key, ghost atGet: Key)
      modifies this
      ensures key.version >= old(key).version
      ensures ran <==> atGet.value == Some(token) && atExec.version == atWatch.version && atExec.value.Some?
      ensures Interferes(old(key), atWatch) && Interferes(atWatch, atGet)
      ensures if atGet.value == Some(token) then Interferes(atGet, atExec) else atExec == atGet
      ensures ran ==> atExec.value == Some(token) && key == Key(if extend then Some(token) else None, atExec.version + 1)
      ensures !ran ==> key == atExec
    {
      Others();
      var watched := key.version;
      atWatch := key;
      Others();
      atGet := key;
      if key.value != Some(token) {
        return false, key, atWatch, atGet;
      }
      Others();
      atExec := key;
      if key.version != watched || key.value.None? {
        return false, atExec, atWatch, atGet;
      }
      key := Key(if extend then key.value else None, key.version + 1);
      return true, atExec, atWatch, atGet;
    }
  }
}
