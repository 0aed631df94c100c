/** Frames that await an answer: the pending-ack map (bp_router/correlation.py), delivery
    with backpressure (bp_router/delivery.py), the Ack and Pong handlers
    (bp_router/dispatch.py), heartbeats and disconnects (bp_router/ws_hub.py). */
module Delivery {
  import opened Options
  import S = Sockets

  type Cid = nat

  /** How the future of a frame ended. */
  datatype Settlement =
    | Answered(entry: S.SocketEntry)     // an Ack or Pong that came in on this socket
    | Backpressure
    | Disconnected
    | TimedOut
    | Abandoned                          // cancelled by its waiter

  datatype Acks = Acks(pending: map<Cid, real>, settled: map<Cid, Settlement>)

  // ------------------------------------------------------------ PendingAcks

  /** `timeout_s or default`. */
  function Deadline(timeout: Option<real>, fallback: real, now: real): real {
    now + (if timeout.Some? && timeout.value != 0.0 then timeout.value else fallback)
  }

  function RegisterId(a: Acks, cid: Cid, deadline: real): Acks {
    a.(pending := a.pending[cid := deadline])
  }

  /** resolve and reject: pop the id and settle its future, unless it is done. */
  function Settle(a: Acks, cid: Cid, value: Settlement): Acks {
    if cid !in a.pending then a
    else Acks(a.pending - {cid}, if cid in a.settled then a.settled else a.settled[cid := value])
  }

  /** Give every future of the set that is not yet settled the same settlement. */
  function SettleAll(settled: map<Cid, Settlement>, ids: set<Cid>, value: Settlement): map<Cid, Settlement> {
    map c | c in settled.Keys + ids :: if c in settled then settled[c] else value
  }

  /** Settle every id of the set; unknown ids are skipped. */
  function SettleIds(a: Acks, ids: set<Cid>, value: Settlement): Acks {
    Acks(a.pending - ids, SettleAll(a.settled, ids * a.pending.Keys, value))
  }

  function Expired(a: Acks, now: real): set<Cid> {
    set c | c in a.pending && a.pending[c] <= now
  }

  /** These ids are pending no longer, their open futures settled with the value; all else
      is as it was. */
  ghost predicate Popped(a: Acks, a1: Acks, ids: set<Cid>, value: Settlement) {
    && (forall c :: c in a1.pending <==> c in a.pending && c !in ids)
    && (forall c :: c in a1.pending ==> a1.pending[c] == a.pending[c])
    && (forall c :: c in a1.settled <==> c in a.settled || (c in ids && c in a.pending))
    && (forall c :: c in a1.settled ==> a1.settled[c] == if c in a.settled then a.settled[c] else value)
  }

  /** A tick times out exactly the ids whose deadline has come. */
  ghost predicate Reaped(a: Acks, a1: Acks, now: real) {
    && (forall c :: c in a1.pending <==> c in a.pending && a.pending[c] > now)
    && (forall c :: c in a1.pending ==> a1.pending[c] == a.pending[c])
    && (forall c :: c in a1.settled <==> c in a.settled || (c in a.pending && a.pending[c] <= now))
    && (forall c :: c in a1.settled ==> a1.settled[c] == if c in a.settled then a.settled[c] else TimedOut)
  }

  lemma SettleNone(a: Acks, value: Settlement)
    ensures SettleIds(a, {}, value) == a
  {
    assert SettleIds(a, {}, value).settled == a.settled;
  }

  lemma SettleOneMore(a: Acks, done: set<Cid>, cid: Cid, value: Settlement)
    requires cid !in done
    ensures Settle(SettleIds(a, done, value), cid, value) == SettleIds(a, done + {cid}, value)
  {
    var one, all := Settle(SettleIds(a, done, value), cid, value), SettleIds(a, done + {cid}, value);
    assert one.pending == all.pending;
    assert one.settled.Keys == all.settled.Keys;
    assert one.settled == all.settled;
  }

  /** Reject one id after the other. */
  function SettleEach(a: Acks, ids: seq<Cid>, value: Settlement): Acks {
    if ids == [] then a else Settle(SettleEach(a, ids[..|ids| - 1], value), ids[|ids| - 1], value)
  }

  function Members(ids: seq<Cid>): set<Cid> {
    set c | c in ids
  }

  /** Rejecting a list in turn, repeats and unknown ids included, is rejecting its set. */
  lemma {:induction false} EachIsAll(a: Acks, ids: seq<Cid>, value: Settlement)
    ensures SettleEach(a, ids, value) == SettleIds(a, Members(ids), value)
  {
    if ids == [] {
      assert Members(ids) == {};
      SettleNone(a, value);
    } else {
      var init, last := ids[..|ids| - 1], ids[|ids| - 1];
      EachIsAll(a, init, value);
      assert ids == init + [last];
      assert Members(ids) == Members(init) + {last};
      if last in init {
        assert Members(ids) == Members(init);
      } else {
        SettleOneMore(a, Members(init), last, value);
      }
    }
  }

  /** PendingAcks; `settled` stands for the futures it handed out. */
  class PendingAcks {
    const fallback: real
    var pending: map<Cid, real>
    var settled: map<Cid, Settlement>

    function Now(): Acks
      reads this
    {
      Acks(pending, settled)
    }

    constructor (fallback: real)
      ensures Now() == Acks(map[], map[]) && this.fallback == fallback
    {
      this.fallback, pending, settled := fallback, map[], map[];
    }

    method Register(cid: Cid, timeout: Option<real>, now: real)
      modifies this
      ensures Now() == RegisterId(old(Now()), cid, Deadline(timeout, fallback, now))
      ensures settled == old(settled)
      ensures pending == old(pending)[cid := now + if timeout.Some? && timeout.value != 0.0 then timeout.value else fallback]
    {
      var wait := fallback;
      if timeout.Some? && timeout.value != 0.0 { wait := timeout.value; }
      pending := pending[cid := now + wait];
    }

    method Resolve(cid: Cid, value: Settlement) returns (found: bool)
      modifies this
      ensures Now() == Settle(old(Now()), cid, value) && found == (cid in old(pending))
      ensures pending == old(pending) - {cid}
      ensures settled == if found && cid !in old(settled) then old(settled)[cid := value] else old(settled)
    {
      if cid !in pending { return false; }
      pending := pending - {cid};
      if cid !in settled { settled := settled[cid := value]; }
      return true;
    }

    /** reject_ids, and the loop of the reaper. */
    method RejectIds(ids: seq<Cid>, value: Settlement) returns (rejected: nat)
      modifies this
      ensures Now() == SettleIds(old(Now()), Members(ids), value)
      ensures Popped(old(Now()), Now(), Members(ids), value)
      ensures rejected == |old(pending).Keys| - |pending.Keys|
    {
      ghost var before := Now();
      rejected := 0;
      for i := 0 to |ids|
        invariant rejected == |before.pending.Keys| - |pending.Keys|
        invariant Now() == SettleEach(before, ids[..i], value)
      {
        assert ids[..i + 1][..i] == ids[..i];
        assert (pending - {ids[i]}).Keys == pending.Keys - {ids[i]};
        var found := Resolve(ids[i], value);
        if found { rejected := rejected + 1; }
      }
      assert ids[..|ids|] == ids;
      EachIsAll(before, ids, value);
    }

    /** One tick of the reaper, given the map's keys in some order. */
    method ReapOnce(order: seq<Cid>, now: real)
      requires Members(order) == pending.Keys
      modifies this
      ensures Now() == SettleIds(old(Now()), Expired(old(Now()), now), TimedOut)
      ensures Reaped(old(Now()), Now(), now)
    {
      var expired := [];
      for i := 0 to |order|
        invariant forall c :: c in expired <==> c in order[..i] && c in pending && pending[c] <= now
      {
        assert order[i] in Members(order);
        if pending[order[i]] <= now { expired := expired + [order[i]]; }
      }
      assert Members(expired) == Expired(Now(), now) by {
        forall c ensures c in Members(expired) <==> c in Expired(Now(), now) {
          assert c in order <==> c in Members(order);
        }
      }
      var _ := RejectIds(expired, TimedOut);
    }
  }

  // ------------------------------------------------------------ the whole system

  /** A frame that was registered: the socket it was put on, and whom it was meant for. */
  datatype Sent = Sent(entry: S.SocketEntry, agent: string)

  datatype Net = Net(
    hub: S.Hub,
    acks: Acks,
    issued: map<Cid, Sent>,
    inflight: map<S.Inflight, set<Cid>>)

  const EMPTY := Net(S.EMPTY, Acks(map[], map[]), map[], map[])

  function Ids(n: Net, i: S.Inflight): set<Cid> {
    if i in n.inflight then n.inflight[i] else {}
  }

  datatype Step =
    | Deliver(agent: string, cid: Cid, deadline: real, full: bool)
    | Ping(entry: S.SocketEntry, cid: Cid, deadline: real, full: bool)
    | Answer(entry: S.SocketEntry, cid: Cid)       // an Ack or a Pong frame comes in
    | WaiterEnds(cid: Cid)                         // the `finally` of a settled wait
    | WaiterCancelled(cid: Cid)
    | ReapTick(now: real)
    | Disconnect(entry: S.SocketEntry)             // reject the in-flight ids, then detach
    | Other(step: S.Step)                          // handshakes and timers

  predicate Running(n: Net, e: S.SocketEntry) {
    e in n.hub.seen && e !in n.hub.left
  }

  /** Register, put on the outbox, and back out if that is full. */
  function Put(n: Net, e: S.SocketEntry, agent: string, cid: Cid, deadline: real, full: bool): Net {
    var registered := RegisterId(n.acks, cid, deadline);
    var tracked := Ids(n, e.inflight) + {cid};
    n.(acks := if full then Settle(registered, cid, Backpressure) else registered,
       issued := n.issued[cid := Sent(e, agent)],
       inflight := n.inflight[e.inflight := if full then tracked - {cid} else tracked])
  }

  function Forget(n: Net, cid: Cid): Net
    requires cid in n.issued
  {
    var i := n.issued[cid].entry.inflight;
    n.(inflight := n.inflight[i := Ids(n, i) - {cid}])
  }

  function DisconnectStep(n: Net, e: S.SocketEntry): Net {
    n.(acks := SettleIds(n.acks, Ids(n, e.inflight), Disconnected), hub := S.DisconnectStep(n.hub, e))
  }

  /** Correlation ids are random, so a registration never repeats one. */
  ghost function Apply(n: Net, step: Step): Net {
    match step
    case Deliver(agent, cid, deadline, full) =>
      if agent in n.hub.slots.live && cid !in n.issued then Put(n, n.hub.slots.live[agent], agent, cid, deadline, full)
      else n
    case Ping(e, cid, deadline, full) =>
      if Running(n, e) && cid !in n.issued then Put(n, e, e.agentId, cid, deadline, full) else n
    case Answer(e, cid) =>
      if Running(n, e) && cid in Ids(n, e.inflight) then n.(acks := Settle(n.acks, cid, Answered(e))) else n
    case WaiterEnds(cid) => if cid in n.issued && cid in n.acks.settled then Forget(n, cid) else n
    case WaiterCancelled(cid) =>
      if cid in n.issued && cid !in n.acks.settled
      then Forget(n, cid).(acks := n.acks.(settled := n.acks.settled[cid := Abandoned]))
      else n
    case ReapTick(now) => n.(acks := SettleIds(n.acks, Expired(n.acks, now), TimedOut))
    case Disconnect(e) => if S.Enabled(n.hub, S.Disconnect(e)) then DisconnectStep(n, e) else n
    case Other(s) => if s.Disconnect? then n else n.(hub := S.Apply(n.hub, s))
  }

  ghost function Run(steps: seq<Step>): Net {
    if steps == [] then EMPTY else Apply(Run(steps[..|steps| - 1]), steps[|steps| - 1])
  }

  // ------------------------------------------------------------ invariant

  /** Sockets that share an in-flight set belong to one agent. */
  ghost predicate SameAgent(h: S.Hub) {
    forall e, f :: e in h.seen && f in h.seen && e.inflight == f.inflight ==> e.agentId == f.agentId
  }

  ghost predicate HubOk(h: S.Hub) {
    S.Placed(h) && SameAgent(h)
  }

  /** An in-flight set tracks only frames put on a socket that has it. */
  ghost predicate Tracks(n: Net) {
    && (forall c :: c in n.issued ==> n.issued[c].entry in n.hub.seen && n.issued[c].entry.agentId == n.issued[c].agent)
    && (forall i, c :: i in n.inflight && c in n.inflight[i] ==> c in n.issued && n.issued[c].entry.inflight == i)
  }

  /** Every registered frame is settled, or is both pending and tracked. */
  ghost predicate Accounted(n: Net) {
    && (forall c :: c in n.acks.pending || c in n.acks.settled ==> c in n.issued)
    && (forall c :: c in n.issued && c !in n.acks.settled ==>
          c in n.acks.pending && c in Ids(n, n.issued[c].entry.inflight))
    && (forall c :: c in n.acks.pending && c in n.acks.settled ==> n.acks.settled[c] == Abandoned)
  }

  ghost predicate AnswersHonest(n: Net) {
    forall c :: c in n.acks.settled && n.acks.settled[c].Answered? ==>
      c in n.issued && n.acks.settled[c].entry.agentId == n.issued[c].agent
  }

  ghost predicate Served(n: Net, i: S.Inflight) {
    exists f :: f in n.hub.seen && f !in n.hub.left && f.inflight == i
  }

  /** Nobody waits on a dead socket. */
  ghost predicate WaitsServed(n: Net) {
    forall c :: c in n.issued && c !in n.acks.settled ==> Served(n, n.issued[c].entry.inflight)
  }

  ghost predicate Sound(n: Net) {
    HubOk(n.hub) && Tracks(n) && Accounted(n) && AnswersHonest(n) && WaitsServed(n)
  }

  lemma HubStep(h: S.Hub, step: S.Step)
    requires HubOk(h)
    ensures HubOk(S.Apply(h, step)) && h.seen <= S.Apply(h, step).seen
    ensures step.Disconnect? || S.Apply(h, step).left == h.left
  {
    S.PlacedStep(h, step);
  }

  lemma PutAcks(n: Net, e: S.SocketEntry, agent: string, cid: Cid, deadline: real, full: bool)
    requires Tracks(n) && Accounted(n) && cid !in n.issued
    ensures Accounted(Put(n, e, agent, cid, deadline, full))
    ensures AnswersHonest(n) ==> AnswersHonest(Put(n, e, agent, cid, deadline, full))
  {
    var n1 := Put(n, e, agent, cid, deadline, full);
    assert cid !in n.acks.pending && cid !in n.acks.settled;
    forall c | c in n1.issued && c !in n1.acks.settled
      ensures c in n1.acks.pending && c in Ids(n1, n1.issued[c].entry.inflight)
    {
      if c != cid { assert c in n.issued && c in n.acks.pending && c in Ids(n, n.issued[c].entry.inflight); }
    }
  }

  lemma PutTracks(n: Net, e: S.SocketEntry, agent: string, cid: Cid, deadline: real, full: bool)
    requires Tracks(n) && WaitsServed(n) && Running(n, e) && cid !in n.issued && e.agentId == agent
    ensures Tracks(Put(n, e, agent, cid, deadline, full)) && WaitsServed(Put(n, e, agent, cid, deadline, full))
  {
    var n1 := Put(n, e, agent, cid, deadline, full);
    forall c | c in n1.issued && c !in n1.acks.settled ensures Served(n1, n1.issued[c].entry.inflight) {
      if c != cid { assert c !in n.acks.settled && Served(n, n.issued[c].entry.inflight); }
    }
  }

  lemma PutSound(n: Net, e: S.SocketEntry, agent: string, cid: Cid, deadline: real, full: bool)
    requires Sound(n) && Running(n, e) && cid !in n.issued && e.agentId == agent
    ensures Sound(Put(n, e, agent, cid, deadline, full))
  {
    PutAcks(n, e, agent, cid, deadline, full);
    PutTracks(n, e, agent, cid, deadline, full);
  }

  /** Settling one future keeps the bookkeeping, if an answer came from the addressee. */
  lemma SettleSound(n: Net, cid: Cid, value: Settlement)
    requires Sound(n) && cid in n.issued
    requires value.Answered? ==> value.entry.agentId == n.issued[cid].agent
    ensures Sound(n.(acks := Settle(n.acks, cid, value)))
  {
    var n1 := n.(acks := Settle(n.acks, cid, value));
    assert Tracks(n1) && Accounted(n1) && AnswersHonest(n1);
    forall c | c in n1.issued && c !in n1.acks.settled ensures Served(n1, n1.issued[c].entry.inflight) {
      assert Served(n, n.issued[c].entry.inflight);
    }
  }

  lemma AnswerSound(n: Net, e: S.SocketEntry, cid: Cid)
    requires Sound(n) && Running(n, e) && cid in Ids(n, e.inflight)
    ensures Sound(n.(acks := Settle(n.acks, cid, Answered(e))))
  {
    assert n.issued[cid].entry.inflight == e.inflight;
    SettleSound(n, cid, Answered(e));
  }

  lemma WaiterSound(n: Net, cid: Cid, cancelled: bool)
    requires Sound(n) && cid in n.issued && (cid in n.acks.settled <==> !cancelled)
    ensures Sound(Apply(n, if cancelled then WaiterCancelled(cid) else WaiterEnds(cid)))
  {
    var n1 := Apply(n, if cancelled then WaiterCancelled(cid) else WaiterEnds(cid));
    WaiterAccounted(n, cid, cancelled);
    assert Tracks(n1);
    forall c | c in n1.issued && c !in n1.acks.settled ensures Served(n1, n1.issued[c].entry.inflight) {
      assert Served(n, n.issued[c].entry.inflight);
    }
  }

  lemma WaiterAccounted(n: Net, cid: Cid, cancelled: bool)
    requires Tracks(n) && Accounted(n) && cid in n.issued && (cid in n.acks.settled <==> !cancelled)
    ensures Accounted(Apply(n, if cancelled then WaiterCancelled(cid) else WaiterEnds(cid)))
  {
    var n1 := Apply(n, if cancelled then WaiterCancelled(cid) else WaiterEnds(cid));
    forall c | c in n1.issued && c !in n1.acks.settled
      ensures c in n1.acks.pending && c in Ids(n1, n1.issued[c].entry.inflight)
    {
      assert c != cid && c in n.acks.pending && c in Ids(n, n.issued[c].entry.inflight);
    }
  }

  lemma SettleIdsSound(n: Net, ids: set<Cid>, value: Settlement)
    requires Sound(n) && !value.Answered?
    ensures Sound(n.(acks := SettleIds(n.acks, ids, value)))
  {
    var n1 := n.(acks := SettleIds(n.acks, ids, value));
    assert Accounted(n1);
    forall c | c in n1.issued && c !in n1.acks.settled ensures Served(n1, n1.issued[c].entry.inflight) {
      assert Served(n, n.issued[c].entry.inflight);
    }
  }

  lemma DisconnectSound(n: Net, e: S.SocketEntry)
    requires Sound(n) && S.Enabled(n.hub, S.Disconnect(e))
    ensures Sound(DisconnectStep(n, e))
  {
    var n1 := DisconnectStep(n, e);
    var rejected := n.(acks := SettleIds(n.acks, Ids(n, e.inflight), Disconnected));
    SettleIdsSound(n, Ids(n, e.inflight), Disconnected);
    HubStep(n.hub, S.Disconnect(e));
    assert Tracks(n1);
    forall c | c in n1.issued && c !in n1.acks.settled ensures Served(n1, n1.issued[c].entry.inflight) {
      var i := n.issued[c].entry.inflight;
      assert i != e.inflight;
      assert Served(rejected, i);
      var f :| f in n.hub.seen && f !in n.hub.left && f.inflight == i;
      assert f in n1.hub.seen && f !in n1.hub.left;
    }
  }

  lemma OtherSound(n: Net, step: S.Step)
    requires Sound(n) && !step.Disconnect?
    ensures Sound(n.(hub := S.Apply(n.hub, step)))
  {
    var n1 := n.(hub := S.Apply(n.hub, step));
    HubStep(n.hub, step);
    forall c | c in n1.issued && c !in n1.acks.settled ensures Served(n1, n1.issued[c].entry.inflight) {
      var i := n.issued[c].entry.inflight;
      assert Served(n, i);
      var f :| f in n.hub.seen && f !in n.hub.left && f.inflight == i;
      assert f in n1.hub.seen && f !in n1.hub.left;
    }
  }

  lemma StepSound(n: Net, step: Step)
    requires Sound(n)
    ensures Sound(Apply(n, step))
  {
    match step
    case Deliver(agent, cid, deadline, full) =>
      if agent in n.hub.slots.live && cid !in n.issued {
        PutSound(n, n.hub.slots.live[agent], agent, cid, deadline, full);
      }
    case Ping(e, cid, deadline, full) =>
      if Running(n, e) && cid !in n.issued { PutSound(n, e, e.agentId, cid, deadline, full); }
    case Answer(e, cid) => if Running(n, e) && cid in Ids(n, e.inflight) { AnswerSound(n, e, cid); }
    case WaiterEnds(cid) => if cid in n.issued && cid in n.acks.settled { WaiterSound(n, cid, false); }
    case WaiterCancelled(cid) => if cid in n.issued && cid !in n.acks.settled { WaiterSound(n, cid, true); }
    case ReapTick(now) => SettleIdsSound(n, Expired(n.acks, now), TimedOut);
    case Disconnect(e) => if S.Enabled(n.hub, S.Disconnect(e)) { DisconnectSound(n, e); }
    case Other(s) => if !s.Disconnect? { OtherSound(n, s); }
  }

  lemma {:induction false} SoundInEveryRun(steps: seq<Step>)
    ensures Sound(Run(steps))
  {
    if steps != [] {
      SoundInEveryRun(steps[..|steps| - 1]);
      StepSound(Run(steps[..|steps| - 1]), steps[|steps| - 1]);
    }
  }

  // ------------------------------------------------------------ main results

  /** In every run, a frame answered by an Ack or Pong was answered on a socket of the agent
      it was addressed to, even when that socket resumed another; and every frame still
      awaited is pending, tracked, and served by a socket that has not disconnected. */
  lemma AnswersComeFromTheAddressee(steps: seq<Step>, cid: Cid)
    requires cid in Run(steps).issued
    ensures var n := Run(steps);
            && (cid in n.acks.settled && n.acks.settled[cid].Answered? ==>
                  n.acks.settled[cid].entry.agentId == n.issued[cid].agent)
            && (cid !in n.acks.settled ==>
                  cid in n.acks.pending && cid in Ids(n, n.issued[cid].entry.inflight)
                  && Served(n, n.issued[cid].entry.inflight))
  {
    SoundInEveryRun(steps);
  }

  lemma RunSnoc(steps: seq<Step>, step: Step)
    ensures Run(steps + [step]) == Apply(Run(steps), step)
  {
    assert (steps + [step])[..|steps + [step]| - 1] == steps;
  }

  /** A delivery to a connected agent is awaited on its live socket, up to its deadline. */
  lemma DeliveryAwaits(steps: seq<Step>, agent: string, cid: Cid, deadline: real)
    requires agent in Run(steps).hub.slots.live && cid !in Run(steps).issued
    ensures var n, n1 := Run(steps), Run(steps + [Deliver(agent, cid, deadline, false)]);
            var e := n.hub.slots.live[agent];
            && n1.acks == n.acks.(pending := n.acks.pending[cid := deadline])
            && n1.issued == n.issued[cid := Sent(e, agent)]
            && Ids(n1, e.inflight) == Ids(n, e.inflight) + {cid}
            && cid !in n1.acks.settled
  {
    RunSnoc(steps, Deliver(agent, cid, deadline, false));
    SoundInEveryRun(steps);
  }

  /** A heartbeat is awaited the same way, on the very socket it is sent on. */
  lemma PingAwaits(steps: seq<Step>, e: S.SocketEntry, cid: Cid, deadline: real)
    requires Running(Run(steps), e) && cid !in Run(steps).issued
    ensures var n, n1 := Run(steps), Run(steps + [Ping(e, cid, deadline, false)]);
            && n1.acks == n.acks.(pending := n.acks.pending[cid := deadline])
            && n1.issued == n.issued[cid := Sent(e, e.agentId)]
            && Ids(n1, e.inflight) == Ids(n, e.inflight) + {cid}
  {
    RunSnoc(steps, Ping(e, cid, deadline, false));
  }

  /** A wait that ends, settled or cancelled by its waiter, is tracked on no socket any
      more, and its future is settled. */
  lemma EndedWaitIsUntracked(steps: seq<Step>, cid: Cid)
    requires cid in Run(steps).issued
    ensures var n := Run(steps);
            var n1 := Run(steps + [if cid in n.acks.settled then WaiterEnds(cid) else WaiterCancelled(cid)]);
            && (forall i :: i in n1.inflight ==> cid !in n1.inflight[i])
            && n1.acks.settled == (if cid in n.acks.settled then n.acks.settled else n.acks.settled[cid := Abandoned])
            && n1.acks.pending == n.acks.pending
  {
    RunSnoc(steps, if cid in Run(steps).acks.settled then WaiterEnds(cid) else WaiterCancelled(cid));
    SoundInEveryRun(steps);
  }

  /** The connection steps of a run. */
  function HubSteps(steps: seq<Step>): seq<S.Step> {
    if steps == [] then []
    else
      var last := steps[|steps| - 1];
      HubSteps(steps[..|steps| - 1]) +
      (match last
       case Disconnect(e) => [S.Disconnect(e)]
       case Other(s) => if s.Disconnect? then [] else [s]
       case _ => [])
  }

  /** Every connection in a run of deliveries is in the state that its handshakes, timers
      and disconnects alone lead to, so all that is proved of those holds here too. */
  lemma {:induction false} HubIsARun(steps: seq<Step>)
    ensures Run(steps).hub == S.Run(HubSteps(steps))
  {
    if steps != [] {
      var init, last := steps[..|steps| - 1], steps[|steps| - 1];
      HubIsARun(init);
      if HubSteps(steps) != HubSteps(init) {
        var s := if last.Disconnect? then S.Disconnect(last.entry) else last.step;
        assert HubSteps(steps) == HubSteps(init) + [s];
        assert HubSteps(steps)[..|HubSteps(steps)| - 1] == HubSteps(init);
      }
    }
  }

  /** An Ack or Pong that comes in on a running socket for a frame in flight there settles
      its future, unless that was settled before. */
  lemma AnswerSettles(steps: seq<Step>, e: S.SocketEntry, cid: Cid)
    requires Running(Run(steps), e) && cid in Ids(Run(steps), e.inflight)
    ensures var n, n1 := Run(steps), Run(steps + [Answer(e, cid)]);
            && cid !in n1.acks.pending
            && n1.acks.settled == if cid in n.acks.settled then n.acks.settled else n.acks.settled[cid := Answered(e)]
  {
    RunSnoc(steps, Answer(e, cid));
    SoundInEveryRun(steps);
    assert cid in Run(steps).issued;
  }

  /** A reaper tick gives up exactly on the frames whose deadline has come. */
  lemma ReaperTimesOut(steps: seq<Step>, now: real)
    ensures Reaped(Run(steps).acks, Run(steps + [ReapTick(now)]).acks, now)
    ensures Run(steps + [ReapTick(now)]) == Run(steps).(acks := Run(steps + [ReapTick(now)]).acks)
  {
    RunSnoc(steps, ReapTick(now));
  }

  /** Once an entry's disconnect has detached it, none of its in-flight ids is pending and
      the future of every frame ever put on it or on a socket it resumed is settled. */
  lemma DisconnectSettlesEverything(steps: seq<Step>, e: S.SocketEntry)
    requires S.Enabled(Run(steps).hub, S.Disconnect(e))
    ensures var n := Run(steps + [Disconnect(e)]);
            && Ids(n, e.inflight) * n.acks.pending.Keys == {}
            && (forall c :: c in n.issued && n.issued[c].entry.inflight == e.inflight ==>
                  c in n.acks.settled && (c !in Run(steps).acks.settled ==> n.acks.settled[c] == Disconnected))
  {
    RunSnoc(steps, Disconnect(e));
    SoundInEveryRun(steps);
  }

  predicate Kept(n: Net, n1: Net, cid: Cid) {
    && cid in n.issued && cid in n1.issued && n1.issued[cid] == n.issued[cid]
    && cid in n.acks.settled && cid in n1.acks.settled && n1.acks.settled[cid] == n.acks.settled[cid]
  }

  lemma SettledStep(n: Net, step: Step, cid: Cid)
    requires cid in n.issued && cid in n.acks.settled
    ensures Kept(n, Apply(n, step), cid)
  {
  }

  /** A settled future keeps its outcome in every continuation of the run. */
  lemma {:induction false} SettlesAtMostOnce(earlier: seq<Step>, later: seq<Step>, cid: Cid)
    requires cid in Run(earlier).acks.settled
    ensures Kept(Run(earlier), Run(earlier + later), cid)
  {
    if later == [] {
      assert earlier + later == earlier;
      SoundInEveryRun(earlier);
    } else {
      var init := later[..|later| - 1];
      SettlesAtMostOnce(earlier, init, cid);
      assert earlier + later == (earlier + init) + [later[|later| - 1]];
      RunSnoc(earlier + init, later[|later| - 1]);
      SettledStep(Run(earlier + init), later[|later| - 1], cid);
    }
  }

  /** A full outbox is backed out of completely: the caller's failure leaves nothing
      pending and nothing tracked, and no answer can come. */
  lemma BackpressureLeavesNothing(steps: seq<Step>, agent: string, cid: Cid, deadline: real)
    requires agent in Run(steps).hub.slots.live && cid !in Run(steps).issued
    ensures var n, n1 := Run(steps), Run(steps + [Deliver(agent, cid, deadline, true)]);
            && n1.acks.pending == n.acks.pending
            && (forall i :: i in n.inflight ==> Ids(n1, i) == Ids(n, i))
            && n1.acks.settled == n.acks.settled[cid := Backpressure]
  {
    RunSnoc(steps, Deliver(agent, cid, deadline, true));
    SoundInEveryRun(steps);
  }

  // ------------------------------------------------------------ deliver_frame and the handlers

  datatype Delivered = NotConnected | QueueFull | Queued(entry: S.SocketEntry)

  class Courier {
    const registry: S.SocketRegistry
    const acks: PendingAcks

    constructor (registry: S.SocketRegistry, acks: PendingAcks)
      ensures this.registry == registry && this.acks == acks
    {
      this.registry, this.acks := registry, acks;
    }

    /** deliver_frame up to the await. A frame nobody waits for is only enqueued. */
    method DeliverFrame(agent: string, cid: Cid, awaitAck: bool, timeout: Option<real>, now: real)
      returns (outcome: Delivered)
      modifies acks
      modifies if agent in registry.live then {registry.live[agent].inflight} else {}
      modifies if agent in registry.live then {registry.live[agent].outbox} else {}
      ensures outcome.NotConnected? <==> agent !in registry.live
      ensures outcome.NotConnected? ==> acks.Now() == old(acks.Now())
      ensures agent in registry.live ==>
                var e := registry.live[agent];
                var full := |old(e.outbox.frames)| >= e.outbox.capacity;
                && outcome == (if full then QueueFull else Queued(e))
                && e.outbox.frames == old(e.outbox.frames) + (if full then [] else [cid])
                && e.inflight.ids == (if !awaitAck then old(e.inflight.ids)
                                      else if full then old(e.inflight.ids) - {cid}
                                      else old(e.inflight.ids) + {cid})
                && acks.Now() == (if !awaitAck then old(acks.Now())
                                  else
                                    var registered := RegisterId(old(acks.Now()), cid, Deadline(timeout, acks.fallback, now));
                                    if full then Settle(registered, cid, Backpressure) else registered)
                && (awaitAck && !full ==>
                      && acks.settled == old(acks.settled)
                      && var wait := if timeout.Some? && timeout.value != 0.0 then timeout.value else acks.fallback;
                         acks.pending == old(acks.pending)[cid := now + wait])
                && (awaitAck && full ==>
                      && acks.pending == old(acks.pending) - {cid}
                      && acks.settled == (if cid in old(acks.settled) then old(acks.settled)
                                          else old(acks.settled)[cid := Backpressure]))
    {
      if agent !in registry.live { return NotConnected; }
      var e := registry.live[agent];
      if awaitAck {
        acks.Register(cid, timeout, now);
        e.inflight.ids := e.inflight.ids + {cid};
      }
      if |e.outbox.frames| >= e.outbox.capacity {
        if awaitAck {
          var _ := acks.Resolve(cid, Backpressure);
          e.inflight.ids := e.inflight.ids - {cid};
        }
        return QueueFull;
      }
      e.outbox.frames := e.outbox.frames + [cid];
      return Queued(e);
    }

    /** _handle_ack and _handle_pong: only for ids in flight on this very socket. */
    method HandleAnswer(e: S.SocketEntry, cid: Cid) returns (known: bool)
      modifies acks
      ensures known == (cid in e.inflight.ids)
      ensures acks.Now() == if known then Settle(old(acks.Now()), cid, Answered(e)) else old(acks.Now())
      ensures known ==> acks.pending == old(acks.pending) - {cid}
      ensures known && cid in old(acks.pending) && cid !in old(acks.settled) ==>
                acks.settled == old(acks.settled)[cid := Answered(e)]
    {
      if cid !in e.inflight.ids { return false; }
      var _ := acks.Resolve(cid, Answered(e));
      return true;
    }

    /** The heap is in the state n of a run: the registry's slots, the pending map with its
        futures, and every socket's in-flight set. */
    ghost predicate Mirrors(n: Net)
      reads registry, acks, set e | e in n.hub.seen :: e.inflight
    {
      registry.Now() == n.hub.slots && acks.Now() == n.acks
      && forall e :: e in n.hub.seen ==> e.inflight.ids == Ids(n, e.inflight)
    }

    /** A delivery that awaits its ack is one step of the run. */
    method DeliverInRun(agent: string, cid: Cid, timeout: Option<real>, now: real, ghost n: Net)
      returns (outcome: Delivered, ghost after: Net)
      requires Mirrors(n) && HubOk(n.hub) && cid !in n.issued
      modifies acks
      modifies if agent in registry.live then {registry.live[agent].inflight} else {}
      modifies if agent in registry.live then {registry.live[agent].outbox} else {}
      ensures after == Apply(n, Deliver(agent, cid, Deadline(timeout, acks.fallback, now), outcome.QueueFull?))
      ensures Mirrors(after)
    {
      after := n;
      if agent in registry.live { assert registry.live[agent] in n.hub.seen; }
      outcome := DeliverFrame(agent, cid, true, timeout, now);
      after := Apply(n, Deliver(agent, cid, Deadline(timeout, acks.fallback, now), outcome.QueueFull?));
    }

    /** An Ack or Pong on a running socket is one step of the run. */
    method AnswerInRun(e: S.SocketEntry, cid: Cid, ghost n: Net) returns (known: bool, ghost after: Net)
      requires Mirrors(n) && Running(n, e)
      modifies acks
      ensures after == Apply(n, Answer(e, cid)) && Mirrors(after)
    {
      known := HandleAnswer(e, cid);
      after := Apply(n, Answer(e, cid));
    }

    method DetachSelf(e: S.SocketEntry) returns (parked: bool)
      modifies registry
      ensures registry.Now() == S.Detach(old(registry.Now()), e)
      ensures parked == S.At(old(registry.live), e)
    {
      var entry := registry.DetachEntry(e.agentId, true, Some(e));
      parked := entry.Some?;
    }

    /** The end of _on_disconnect, from reject_ids to detach, is one step of the run; `ids`
        lists the socket's in-flight set. */
    method DisconnectInRun(e: S.SocketEntry, ids: seq<Cid>, ghost n: Net) returns (parked: bool, ghost after: Net)
      requires Mirrors(n) && S.Enabled(n.hub, S.Disconnect(e)) && Members(ids) == e.inflight.ids
      modifies acks, registry
      ensures after == Apply(n, Disconnect(e)) && Mirrors(after)
      ensures parked == S.At(n.hub.slots.live, e)
    {
      after := DisconnectStep(n, e);
      var _ := acks.RejectIds(ids, Disconnected);
      assert acks.Now() == after.acks;
      parked := DetachSelf(e);
      assert after.hub.slots == S.Detach(n.hub.slots, e) && after.hub.seen == n.hub.seen;
    }
  }
}
