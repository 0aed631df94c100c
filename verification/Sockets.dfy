/** The router's socket registry: superseding, parking for the resume window, resuming and
    expiry (bp_router/ws_hub.py). Entries are objects and are compared by identity. */
module Sockets {
  import opened Options

  /** A socket's queue of outgoing frames. */
  class Outbox {
    var frames: seq<nat>
    const capacity: nat

    constructor (capacity: nat)
      ensures frames == [] && this.capacity == capacity
    {
      frames := [];
      this.capacity := capacity;
    }
  }

  /** A socket's set of correlation ids that still await an answer. */
  class Inflight {
    var ids: set<nat>

    constructor ()
      ensures ids == {}
    {
      ids := {};
    }
  }

  class SocketEntry {
    const agentId: string
    const token: string
    const outbox: Outbox
    const inflight: Inflight
    var closed: bool

    constructor (agentId: string, token: string, outbox: Outbox, inflight: Inflight)
      ensures this.agentId == agentId && this.token == token
      ensures this.outbox == outbox && this.inflight == inflight && !closed
    {
      this.agentId, this.token, this.outbox, this.inflight := agentId, token, outbox, inflight;
      closed := false;
    }
  }

  // ------------------------------------------------------------ the registry

  datatype Slots = Slots(live: map<string, SocketEntry>, resume: map<string, SocketEntry>)

  predicate At(slots: map<string, SocketEntry>, e: SocketEntry) {
    e.agentId in slots && slots[e.agentId] == e
  }

  function Attach(s: Slots, e: SocketEntry): Slots {
    s.(live := s.live[e.agentId := e])
  }

  /** detach(expected=e, into_resume=True): nothing happens unless `e` itself is live. */
  function Detach(s: Slots, e: SocketEntry): Slots {
    if At(s.live, e) then Slots(s.live - {e.agentId}, s.resume[e.agentId := e]) else s
  }

  /** The parked entry a token reclaims. */
  function Claim(s: Slots, agent: string, token: string): Option<SocketEntry> {
    if agent in s.resume && s.resume[agent].token == token then Some(s.resume[agent]) else None
  }

  function Unpark(s: Slots, agent: string): Slots {
    s.(resume := s.resume - {agent})
  }

  class SocketRegistry {
    var live: map<string, SocketEntry>
    var resume: map<string, SocketEntry>

    constructor ()
      ensures Now() == Slots(map[], map[])
    {
      live, resume := map[], map[];
    }

    function Now(): Slots
      reads this
    {
      Slots(live, resume)
    }

    method AttachEntry(e: SocketEntry) returns (previous: Option<SocketEntry>)
      modifies this
      ensures live == old(live)[e.agentId := e] && resume == old(resume)
      ensures previous == if e.agentId in old(live) then Some(old(live)[e.agentId]) else None
    {
      previous := if e.agentId in live then Some(live[e.agentId]) else None;
      live := live - {e.agentId};
      live := live[e.agentId := e];
    }

    method DetachEntry(agent: string, intoResume: bool, expected: Option<SocketEntry>)
      returns (entry: Option<SocketEntry>)
      modifies this
      ensures entry == if agent in old(live) && (expected.None? || expected.value == old(live)[agent])
                       then Some(old(live)[agent]) else None
      ensures entry.None? ==> Now() == old(Now())
      ensures entry.Some? ==> live == old(live) - {agent}
      ensures entry.Some? ==> resume == if intoResume then old(resume)[agent := entry.value] else old(resume)
    {
      if expected.Some? && (agent !in live || live[agent] != expected.value) {
        return None;
      }
      if agent !in live {
        return None;
      }
      entry := Some(live[agent]);
      live := live - {agent};
      if intoResume {
        resume := resume[agent := entry.value];
      }
    }

    method ConsumeResume(agent: string, token: string) returns (entry: Option<SocketEntry>)
      modifies this
      ensures entry == Claim(old(Now()), agent, token)
      ensures entry.Some? <==> agent in old(resume) && old(resume)[agent].token == token
      ensures entry.Some? ==> entry.value == old(resume)[agent]
      ensures live == old(live) && resume == if entry.Some? then old(resume) - {agent} else old(resume)
    {
      if agent !in resume || resume[agent].token != token {
        return None;
      }
      entry := Some(resume[agent]);
      resume := resume - {agent};
    }

    method ExpireResume(agent: string, e: SocketEntry) returns (popped: bool)
      modifies this
      ensures popped == (agent in old(resume) && old(resume)[agent] == e)
      ensures live == old(live) && resume == if popped then old(resume) - {agent} else old(resume)
    {
      if agent !in resume || resume[agent] != e {
        return false;
      }
      resume := resume - {agent};
      popped := true;
    }
  }

  // ------------------------------------------------------------ every connection, over time

  /** What happened: an entry was parked, a parked entry was taken over by its token, a
      resume window ran out (failed = the agent's in-flight tasks were failed). */
  datatype Event =
    | Parked(entry: SocketEntry)
    | Resumed(entry: SocketEntry, heir: SocketEntry)
    | WindowEnded(entry: SocketEntry, failed: bool)

  datatype Hub = Hub(
    slots: Slots,
    seen: set<SocketEntry>,              // every entry a handshake built
    left: set<SocketEntry>,              // entries whose disconnect reached detach
    timers: set<SocketEntry>,            // resume windows still running
    log: seq<Event>,
    parkedAt: map<SocketEntry, nat>)     // where in the log an entry was parked

  const EMPTY := Hub(Slots(map[], map[]), {}, {}, {}, [], map[])

  /** Two handshakes never share an object unless one resumes the other's. */
  ghost predicate FreshFor(h: Hub, e: SocketEntry) {
    forall f :: f in h.seen ==> f.outbox != e.outbox && f.inflight != e.inflight
  }

  datatype Step =
    | Handshake(entry: SocketEntry, token: Option<string>)
    | Disconnect(entry: SocketEntry)
    | Timer(entry: SocketEntry)

  function Reclaimed(h: Hub, agent: string, token: Option<string>): Option<SocketEntry> {
    if token.Some? && token.value != "" then Claim(h.slots, agent, token.value) else None
  }

  /** When a step can be taken. A handshake builds a new object: the resumed one's token,
      outbox and in-flight set, or new ones. Disconnect runs once per entry. */
  ghost predicate Enabled(h: Hub, step: Step) {
    match step
    case Handshake(e, token) =>
      && e !in h.seen
      && (match Reclaimed(h, e.agentId, token)
          case Some(p) => e.token == p.token && e.outbox == p.outbox && e.inflight == p.inflight
          case None => FreshFor(h, e))
    case Disconnect(e) => e in h.seen && e !in h.left
    case Timer(e) => e in h.timers
  }

  function HandshakeStep(h: Hub, e: SocketEntry, token: Option<string>): Hub {
    match Reclaimed(h, e.agentId, token)
    case Some(p) =>
      h.(slots := Attach(Unpark(h.slots, e.agentId), e), seen := h.seen + {e}, log := h.log + [Resumed(p, e)])
    case None =>
      h.(slots := Attach(h.slots, e), seen := h.seen + {e})
  }

  function DisconnectStep(h: Hub, e: SocketEntry): Hub {
    if At(h.slots.live, e) then
      h.(slots := Detach(h.slots, e), left := h.left + {e}, timers := h.timers + {e},
         log := h.log + [Parked(e)], parkedAt := h.parkedAt[e := |h.log|])
    else
      h.(left := h.left + {e})
  }

  function TimerStep(h: Hub, e: SocketEntry): Hub {
    var failed := At(h.slots.resume, e);
    h.(slots := if failed then Unpark(h.slots, e.agentId) else h.slots,
       timers := h.timers - {e}, log := h.log + [WindowEnded(e, failed)])
  }

  ghost function Apply(h: Hub, step: Step): Hub {
    if !Enabled(h, step) then h
    else
      match step
      case Handshake(e, token) => HandshakeStep(h, e, token)
      case Disconnect(e) => DisconnectStep(h, e)
      case Timer(e) => TimerStep(h, e)
  }

  ghost function Run(steps: seq<Step>): Hub {
    if steps == [] then EMPTY else Apply(Run(steps[..|steps| - 1]), steps[|steps| - 1])
  }

  // ------------------------------------------------------------ who is where

  ghost predicate Placed(h: Hub) {
    && (forall a :: a in h.slots.live ==>
          h.slots.live[a].agentId == a && h.slots.live[a] in h.seen && h.slots.live[a] !in h.left)
    && (forall a :: a in h.slots.resume ==>
          h.slots.resume[a].agentId == a && h.slots.resume[a] in h.left && h.slots.resume[a] in h.timers)
    && h.timers <= h.left <= h.seen
  }

  /** An entry that can still send: its loops may be running, or it waits to be resumed. */
  predicate Holds(h: Hub, e: SocketEntry) {
    e !in h.left || At(h.slots.resume, e)
  }

  /** One holder per outbox and per in-flight set. */
  ghost predicate Exclusive(h: Hub) {
    forall e, f :: e in h.seen && f in h.seen && e != f && Holds(h, e) && Holds(h, f) ==>
      e.outbox != f.outbox && e.inflight != f.inflight
  }

  lemma PlacedStep(h: Hub, step: Step)
    requires Placed(h)
    ensures Placed(Apply(h, step))
  {
  }

  lemma ExclusiveHandshake(h: Hub, e: SocketEntry, token: Option<string>)
    requires Placed(h) && Exclusive(h) && Enabled(h, Handshake(e, token))
    ensures Exclusive(HandshakeStep(h, e, token))
  {
    var h1 := HandshakeStep(h, e, token);
    forall f, g | f in h1.seen && g in h1.seen && f != g && Holds(h1, f) && Holds(h1, g)
      ensures f.outbox != g.outbox && f.inflight != g.inflight
    {
      if f in h.seen && g in h.seen {
        assert Holds(h, f) && Holds(h, g);
      } else {
        var other := if f == e then g else f;
        assert other in h.seen && Holds(h, other);
        match Reclaimed(h, e.agentId, token) {
          case None =>
          case Some(p) => assert At(h.slots.resume, p) && Holds(h, p) && !Holds(h1, p);
        }
      }
    }
  }

  lemma ExclusiveStep(h: Hub, step: Step)
    requires Placed(h) && Exclusive(h)
    ensures Exclusive(Apply(h, step))
  {
    if Enabled(h, step) {
      match step {
        case Handshake(e, token) => ExclusiveHandshake(h, e, token);
        case Disconnect(e) =>
          var h1 := DisconnectStep(h, e);
          forall f | f in h1.seen && Holds(h1, f) ensures Holds(h, f) {
          }
        case Timer(e) =>
          var h1 := TimerStep(h, e);
          forall f | f in h1.seen && Holds(h1, f) ensures Holds(h, f) {
          }
      }
    }
  }

  /** In every run an entry sits in at most one of live and parked, under its own agent id,
      and no two entries that can still send share an outbox or an in-flight set. */
  lemma {:induction false} PlacesInEveryRun(steps: seq<Step>)
    ensures Placed(Run(steps)) && Exclusive(Run(steps))
    ensures forall e :: e in Run(steps).seen ==> !(At(Run(steps).slots.live, e) && At(Run(steps).slots.resume, e))
  {
    if steps != [] {
      var before := Run(steps[..|steps| - 1]);
      PlacesInEveryRun(steps[..|steps| - 1]);
      PlacedStep(before, steps[|steps| - 1]);
      ExclusiveStep(before, steps[|steps| - 1]);
    }
  }

  ghost predicate Displaces(step: Step, e: SocketEntry) {
    step == Disconnect(e) || (step.Handshake? && step.entry.agentId == e.agentId && step.entry != e)
  }

  /** A live entry stays live until its own disconnect or a newer handshake of the same
      agent: never because some other entry disconnected or some window ran out. */
  lemma {:induction false} LiveUntilDisplaced(earlier: seq<Step>, later: seq<Step>, e: SocketEntry)
    requires At(Run(earlier).slots.live, e)
    requires forall i :: 0 <= i < |later| ==> !Displaces(later[i], e)
    ensures At(Run(earlier + later).slots.live, e)
  {
    if later == [] {
      assert earlier + later == earlier;
    } else {
      var init := later[..|later| - 1];
      assert (earlier + later)[..|earlier + later| - 1] == earlier + init;
      LiveUntilDisplaced(earlier, init, e);
      PlacesInEveryRun(earlier + init);
      assert !Displaces(later[|later| - 1], e);
    }
  }

  // ------------------------------------------------------------ the fate of a parked entry

  /** The parked entry was taken over by its token, or replaced by a later park. */
  predicate Releases(ev: Event, e: SocketEntry) {
    (ev.Resumed? && ev.entry == e) || (ev.Parked? && ev.entry.agentId == e.agentId)
  }

  ghost predicate Quiet(log: seq<Event>, e: SocketEntry, from: nat, to: nat)
    requires to <= |log|
  {
    forall k :: from < k < to ==> !Releases(log[k], e)
  }

  predicate EndedAt(log: seq<Event>, e: SocketEntry, j: nat) {
    j < |log| && log[j].WindowEnded? && log[j].entry == e
  }

  ghost predicate ParksRecorded(h: Hub) {
    && (forall e :: e in h.parkedAt ==> e in h.left && h.parkedAt[e] < |h.log| && h.log[h.parkedAt[e]] == Parked(e))
    && (forall j :: 0 <= j < |h.log| && h.log[j].Parked? ==>
          h.log[j].entry in h.parkedAt && h.parkedAt[h.log[j].entry] == j)
    && (forall e :: e in h.timers ==> e in h.parkedAt)
  }

  ghost predicate ParkKnown(h: Hub, e: SocketEntry)
    requires e in h.parkedAt
  {
    At(h.slots.resume, e) <==> e in h.timers && Quiet(h.log, e, h.parkedAt[e], |h.log|)
  }

  ghost predicate StillParked(h: Hub) {
    forall e :: e in h.parkedAt ==> ParkKnown(h, e)
  }

  ghost predicate EndKnown(h: Hub, j: nat)
    requires j < |h.log| && h.log[j].WindowEnded?
  {
    var e := h.log[j].entry;
    && e in h.parkedAt && e !in h.timers && h.parkedAt[e] < j
    && (h.log[j].failed <==> Quiet(h.log, e, h.parkedAt[e], j))
  }

  ghost predicate EndsRecorded(h: Hub) {
    && (forall j: nat :: j < |h.log| && h.log[j].WindowEnded? ==> EndKnown(h, j))
    && (forall j: nat, k: nat :: j < k < |h.log| && h.log[j].WindowEnded? && h.log[k].WindowEnded? ==>
          h.log[j].entry != h.log[k].entry)
    && (forall e :: e in h.parkedAt && e !in h.timers ==> exists j: nat :: EndedAt(h.log, e, j))
  }

  lemma QuietGrows(log: seq<Event>, ev: Event, e: SocketEntry, i: nat)
    requires i < |log|
    ensures Quiet(log + [ev], e, i, |log| + 1) <==> Quiet(log, e, i, |log|) && !Releases(ev, e)
  {
    if Quiet(log + [ev], e, i, |log| + 1) {
      assert !Releases((log + [ev])[|log|], e);
      forall k | i < k < |log| ensures !Releases(log[k], e) { assert (log + [ev])[k] == log[k]; }
    }
  }

  lemma QuietKept(log: seq<Event>, ev: Event, e: SocketEntry, i: nat, j: nat)
    requires j <= |log|
    ensures Quiet(log + [ev], e, i, j) <==> Quiet(log, e, i, j)
  {
    if Quiet(log + [ev], e, i, j) {
      forall k | i < k < j ensures !Releases(log[k], e) { assert (log + [ev])[k] == log[k]; }
    }
  }

  lemma ParksStep(h: Hub, step: Step)
    requires Placed(h) && ParksRecorded(h)
    ensures ParksRecorded(Apply(h, step))
  {
  }

  lemma StillParkedHandshake(h: Hub, e: SocketEntry, token: Option<string>)
    requires Placed(h) && ParksRecorded(h) && StillParked(h)
    ensures StillParked(HandshakeStep(h, e, token))
  {
    var h1 := HandshakeStep(h, e, token);
    match Reclaimed(h, e.agentId, token)
    case None => forall f | f in h1.parkedAt ensures ParkKnown(h1, f) { assert ParkKnown(h, f); }
    case Some(p) =>
      forall f | f in h1.parkedAt ensures ParkKnown(h1, f) {
        assert ParkKnown(h, f);
        QuietGrows(h.log, Resumed(p, e), f, h.parkedAt[f]);
      }
  }

  lemma StillParkedDisconnect(h: Hub, e: SocketEntry)
    requires Placed(h) && ParksRecorded(h) && StillParked(h) && Enabled(h, Disconnect(e))
    ensures StillParked(DisconnectStep(h, e))
  {
    var h1 := DisconnectStep(h, e);
    forall f | f in h1.parkedAt ensures ParkKnown(h1, f) {
      if f in h.parkedAt { assert ParkKnown(h, f); }
      if At(h.slots.live, e) && f != e {
        QuietGrows(h.log, Parked(e), f, h.parkedAt[f]);
      }
    }
  }

  lemma StillParkedTimer(h: Hub, e: SocketEntry)
    requires Placed(h) && ParksRecorded(h) && StillParked(h)
    ensures StillParked(TimerStep(h, e))
  {
    var h1 := TimerStep(h, e);
    forall f | f in h1.parkedAt ensures ParkKnown(h1, f) {
      assert ParkKnown(h, f);
      QuietGrows(h.log, WindowEnded(e, At(h.slots.resume, e)), f, h.parkedAt[f]);
    }
  }

  /** An event that ends no window leaves the record of ended windows as it was. */
  lemma EndsKept(h: Hub, h1: Hub, ev: Event)
    requires Placed(h) && ParksRecorded(h) && EndsRecorded(h) && !ev.WindowEnded?
    requires h1.log == h.log + [ev]
    requires forall e :: e in h.parkedAt ==>
               e in h1.parkedAt && h1.parkedAt[e] == h.parkedAt[e] && (e in h1.timers <==> e in h.timers)
    requires forall e :: e in h1.parkedAt && e !in h.parkedAt ==> e in h1.timers
    ensures EndsRecorded(h1)
  {
    forall j: nat | j < |h1.log| && h1.log[j].WindowEnded? ensures EndKnown(h1, j) {
      assert h1.log[j] == h.log[j] && EndKnown(h, j);
      var e := h.log[j].entry;
      QuietKept(h.log, ev, e, h.parkedAt[e], j);
    }
    forall e | e in h1.parkedAt && e !in h1.timers ensures exists j: nat :: EndedAt(h1.log, e, j) {
      var j: nat :| EndedAt(h.log, e, j);
      assert EndedAt(h1.log, e, j);
    }
  }

  lemma EndsTimer(h: Hub, e: SocketEntry)
    requires Placed(h) && ParksRecorded(h) && StillParked(h) && EndsRecorded(h) && e in h.timers
    ensures EndsRecorded(TimerStep(h, e))
  {
    var h1, ev := TimerStep(h, e), WindowEnded(e, At(h.slots.resume, e));
    forall j: nat | j < |h1.log| && h1.log[j].WindowEnded? ensures EndKnown(h1, j) {
      if j < |h.log| {
        assert h1.log[j] == h.log[j] && EndKnown(h, j);
      } else {
        assert ParkKnown(h, e);
      }
      QuietKept(h.log, ev, h1.log[j].entry, h.parkedAt[h1.log[j].entry], j);
    }
    forall j: nat, k: nat | j < k < |h1.log| && h1.log[j].WindowEnded? && h1.log[k].WindowEnded?
      ensures h1.log[j].entry != h1.log[k].entry
    {
      assert h1.log[j] == h.log[j] && EndKnown(h, j);
    }
    forall f | f in h1.parkedAt && f !in h1.timers ensures exists j: nat :: EndedAt(h1.log, f, j) {
      if f == e {
        assert EndedAt(h1.log, e, |h.log|);
      } else {
        var j: nat :| EndedAt(h.log, f, j);
        assert EndedAt(h1.log, f, j);
      }
    }
  }

  lemma EndsStep(h: Hub, step: Step)
    requires Placed(h) && ParksRecorded(h) && StillParked(h) && EndsRecorded(h) && Enabled(h, step)
    ensures EndsRecorded(Apply(h, step))
  {
    var h1 := Apply(h, step);
    match step
    case Handshake(e, token) =>
      var p := Reclaimed(h, e.agentId, token);
      if p.Some? { EndsKept(h, h1, Resumed(p.value, e)); }
    case Disconnect(e) =>
      if At(h.slots.live, e) {
        assert e !in h.parkedAt;
        EndsKept(h, h1, Parked(e));
      }
    case Timer(e) => EndsTimer(h, e);
  }

  ghost predicate FatesKnown(h: Hub) {
    ParksRecorded(h) && StillParked(h) && EndsRecorded(h)
  }

  lemma {:induction false} FatesInEveryRun(steps: seq<Step>)
    ensures FatesKnown(Run(steps))
  {
    if steps != [] {
      var before, step := Run(steps[..|steps| - 1]), steps[|steps| - 1];
      FatesInEveryRun(steps[..|steps| - 1]);
      PlacesInEveryRun(steps[..|steps| - 1]);
      ParksStep(before, step);
      if Enabled(before, step) {
        EndsStep(before, step);
        match step {
          case Handshake(e, token) => StillParkedHandshake(before, e, token);
          case Disconnect(e) => StillParkedDisconnect(before, e);
          case Timer(e) => StillParkedTimer(before, e);
        }
      }
    }
  }

  /** The main result: in every run, the end of a park's resume window fails the agent's
      in-flight tasks exactly when, between the park and that moment, the entry was neither
      taken over by its token nor replaced by a later park of the same agent. Every
      park's window ends at most once, and has ended once its timer is gone. */
  lemma ParkFailsExactlyWhenUnclaimed(steps: seq<Step>, e: SocketEntry, i: nat)
    requires i < |Run(steps).log| && Run(steps).log[i] == Parked(e)
    ensures forall j: nat :: EndedAt(Run(steps).log, e, j) ==>
              i < j && (Run(steps).log[j].failed <==> Quiet(Run(steps).log, e, i, j))
    ensures forall j: nat, k: nat :: EndedAt(Run(steps).log, e, j) && EndedAt(Run(steps).log, e, k) ==> j == k
    ensures e !in Run(steps).timers <==> exists j: nat :: EndedAt(Run(steps).log, e, j)
  {
    FatesInEveryRun(steps);
    var h := Run(steps);
    forall j: nat | EndedAt(h.log, e, j) ensures i < j && (h.log[j].failed <==> Quiet(h.log, e, i, j)) && e !in h.timers {
      assert EndKnown(h, j);
    }
  }

  /** No window ends for an entry that was never parked. */
  lemma OnlyParkedEntriesExpire(steps: seq<Step>, e: SocketEntry, j: nat)
    requires EndedAt(Run(steps).log, e, j)
    ensures exists i: nat :: i < j && Run(steps).log[i] == Parked(e)
  {
    FatesInEveryRun(steps);
    assert EndKnown(Run(steps), j);
    assert Run(steps).log[Run(steps).parkedAt[e]] == Parked(e);
  }

  /** Reconnecting without the parked token does not reclaim the park: when its window
      ends the agent's in-flight tasks are failed although the agent is connected. */
  lemma ReconnectWithoutToken(steps: seq<Step>, parked: SocketEntry, e: SocketEntry, token: Option<string>)
    requires At(Run(steps).slots.resume, parked) && e.agentId == parked.agentId
    requires Enabled(Run(steps), Handshake(e, token)) && token != Some(parked.token)
    ensures var last := Run(steps + [Handshake(e, token), Timer(parked)]);
            && At(last.slots.live, e)
            && last.log == Run(steps).log + [WindowEnded(parked, true)]
  {
    PlacesInEveryRun(steps);
    var two := steps + [Handshake(e, token)];
    assert two[..|two| - 1] == steps;
    var three := steps + [Handshake(e, token), Timer(parked)];
    assert three[..|three| - 1] == two;
    assert Enabled(Run(two), Timer(parked));
  }

  /** What has been logged stays, and a window that has ended does not run again. */
  lemma {:induction false} LogGrows(earlier: seq<Step>, later: seq<Step>)
    ensures Run(earlier).log <= Run(earlier + later).log
  {
    if later == [] {
      assert earlier + later == earlier;
    } else {
      var init := later[..|later| - 1];
      assert (earlier + later)[..|earlier + later| - 1] == earlier + init;
      LogGrows(earlier, init);
    }
  }

  lemma OpenWindowHasNotEnded(steps: seq<Step>, p: SocketEntry, j: nat)
    requires p in Run(steps).timers
    ensures !EndedAt(Run(steps).log, p, j)
  {
    FatesInEveryRun(steps);
    ParkFailsExactlyWhenUnclaimed(steps, p, Run(steps).parkedAt[p]);
  }

  /** A handshake with the token of its agent's parked entry, whoever is live meanwhile,
      takes the park over: the new entry is live with the token, the outbox and the in-flight
      set of the parked one, which is parked no longer; and however the run goes on, the end
      of that park's window fails nothing. */
  lemma ReconnectWithToken(steps: seq<Step>, p: SocketEntry, e: SocketEntry, later: seq<Step>)
    requires At(Run(steps).slots.resume, p) && e.agentId == p.agentId && p.token != ""
    requires Enabled(Run(steps), Handshake(e, Some(p.token)))
    ensures TakesOver(Run(steps), Run(steps + [Handshake(e, Some(p.token))]), p, e)
    ensures forall j: nat :: EndedAt(Run(steps + [Handshake(e, Some(p.token))] + later).log, p, j) ==>
              !Run(steps + [Handshake(e, Some(p.token))] + later).log[j].failed
  {
    var two := steps + [Handshake(e, Some(p.token))];
    TokenTakesOver(steps, p, e);
    LogGrows(two, later);
    var k, last := |Run(steps).log|, Run(two + later);
    assert last.log[k] == Run(two).log[k] == Resumed(p, e);
    assert Run(steps).log <= last.log;
    forall j: nat | EndedAt(last.log, p, j) ensures !last.log[j].failed {
      OpenWindowHasNotEnded(steps, p, j);
      ReleasedWindow(steps, two + later, p, k, j);
    }
  }

  predicate TakesOver(h: Hub, h1: Hub, p: SocketEntry, e: SocketEntry) {
    && e.token == p.token && e.outbox == p.outbox && e.inflight == p.inflight
    && At(h1.slots.live, e) && !At(h1.slots.resume, p)
    && h1.log == h.log + [Resumed(p, e)]
  }

  lemma TokenTakesOver(steps: seq<Step>, p: SocketEntry, e: SocketEntry)
    requires At(Run(steps).slots.resume, p) && e.agentId == p.agentId && p.token != ""
    requires Enabled(Run(steps), Handshake(e, Some(p.token)))
    ensures TakesOver(Run(steps), Run(steps + [Handshake(e, Some(p.token))]), p, e)
    ensures p in Run(steps).timers && p in Run(steps).parkedAt
  {
    var two := steps + [Handshake(e, Some(p.token))];
    assert two[..|two| - 1] == steps;
    PlacesInEveryRun(steps);
    FatesInEveryRun(steps);
  }

  /** A window that ends after its park was released fails nothing. */
  lemma ReleasedWindow(steps: seq<Step>, all: seq<Step>, p: SocketEntry, k: nat, j: nat)
    requires p in Run(steps).parkedAt && Run(steps).log <= Run(all).log
    requires |Run(steps).log| <= k < j && k < |Run(all).log| && Releases(Run(all).log[k], p)
    requires EndedAt(Run(all).log, p, j)
    ensures !Run(all).log[j].failed
  {
    FatesInEveryRun(steps);
    var i := Run(steps).parkedAt[p];
    assert Run(all).log[i] == Run(steps).log[i] == Parked(p);
    ParkFailsExactlyWhenUnclaimed(all, p, i);
  }

  lemma {:induction false} SeenInSteps(steps: seq<Step>)
    ensures forall e :: e in Run(steps).seen ==> exists i :: 0 <= i < |steps| && steps[i].entry == e
  {
    if steps != [] {
      var init := steps[..|steps| - 1];
      SeenInSteps(init);
      forall e | e in Run(steps).seen ensures exists i :: 0 <= i < |steps| && steps[i].entry == e {
        if e in Run(init).seen {
          var i :| 0 <= i < |init| && init[i].entry == e;
          assert steps[i].entry == e;
        } else {
          assert steps[|steps| - 1].entry == e;
        }
      }
    }
  }

  // ------------------------------------------------------------ the connection handlers

  /** The hub's handlers over the registry; each atomic section is one step of the run. */
  class WsHub {
    const registry: SocketRegistry
    const capacity: nat
    ghost var steps: seq<Step>

    ghost predicate Valid()
      reads this, registry
    {
      registry.Now() == Run(steps).slots
    }

    constructor (registry: SocketRegistry, capacity: nat)
      requires registry.Now() == EMPTY.slots
      ensures Valid() && steps == [] && this.registry == registry && this.capacity == capacity
    {
      this.registry, this.capacity, steps := registry, capacity, [];
    }

    /** _handshake, from the resume lookup to the attach. `freshToken` is the unguessable
        token a new session draws. */
    method Connect(agent: string, token: Option<string>, freshToken: string) returns (e: SocketEntry)
      requires Valid()
      modifies this`steps, registry, if agent in registry.live then {registry.live[agent]} else {}
      ensures Valid() && fresh(e) && e.agentId == agent
      ensures steps == old(steps) + [Handshake(e, token)] && Enabled(Run(old(steps)), Handshake(e, token))
      ensures if token.Some? && token.value != "" && agent in old(registry.resume) && old(registry.resume)[agent].token == token.value
              then
                var p := old(registry.resume)[agent];
                && e.token == p.token && e.outbox == p.outbox && e.inflight == p.inflight
                && registry.resume == old(registry.resume) - {agent}
              else
                e.token == freshToken && fresh(e.outbox) && fresh(e.inflight) && registry.resume == old(registry.resume)
      ensures registry.live == old(registry.live)[agent := e]
      ensures agent in old(registry.live) ==> old(registry.live[agent]).closed
    {
      ghost var before := Run(steps);
      SeenInSteps(steps);
      var resumed := None;
      if token.Some? && token.value != "" {
        resumed := registry.ConsumeResume(agent, token.value);
      }
      if resumed.Some? {
        e := new SocketEntry(agent, resumed.value.token, resumed.value.outbox, resumed.value.inflight);
      } else {
        var outbox := new Outbox(capacity);
        var inflight := new Inflight();
        e := new SocketEntry(agent, freshToken, outbox, inflight);
      }
      var previous := registry.AttachEntry(e);
      steps := steps + [Handshake(e, token)];
      assert steps[..|steps| - 1] == old(steps);
      assert Enabled(before, Handshake(e, token));
      if previous.Some? {
        previous.value.closed := true;
      }
    }

    /** The last part of _on_disconnect; true when a resume window was started. */
    method OnDisconnect(e: SocketEntry) returns (parked: bool)
      requires Valid() && Enabled(Run(steps), Disconnect(e))
      modifies this`steps, registry, e
      ensures Valid() && steps == old(steps) + [Disconnect(e)] && e.closed
      ensures parked == old(At(registry.live, e))
      ensures parked == (Run(steps).log == Run(old(steps)).log + [Parked(e)])
      ensures registry.live == (if parked then old(registry.live) - {e.agentId} else old(registry.live))
      ensures registry.resume == (if parked then old(registry.resume)[e.agentId := e] else old(registry.resume))
    {
      PlacesInEveryRun(steps);
      e.closed := true;
      var entry := registry.DetachEntry(e.agentId, true, Some(e));
      parked := entry.Some?;
      steps := steps + [Disconnect(e)];
      assert steps[..|steps| - 1] == old(steps);
    }

    /** _resume_window_expiry after its sleep; true when the in-flight tasks are failed. */
    method WindowExpiry(e: SocketEntry) returns (failed: bool)
      requires Valid() && Enabled(Run(steps), Timer(e))
      modifies this`steps, registry
      ensures Valid() && steps == old(steps) + [Timer(e)]
      ensures e in Run(old(steps)).parkedAt
      ensures failed == Quiet(Run(old(steps)).log, e, Run(old(steps)).parkedAt[e], |Run(old(steps)).log|)
      ensures failed == old(At(registry.resume, e)) && registry.live == old(registry.live)
      ensures registry.resume == if failed then old(registry.resume) - {e.agentId} else old(registry.resume)
    {
      FatesInEveryRun(steps);
      failed := registry.ExpireResume(e.agentId, e);
      steps := steps + [Timer(e)];
      assert steps[..|steps| - 1] == old(steps);
    }
  }
}
