/** The SDK's map from correlation ids to futures, with its bounded buffer for values
    that arrive before anyone registered for them (bp_sdk/correlation.py). */
module PendingResults {
  import opened Options

  type Cid = nat
  type FutureId = nat

  /** How a future ended; Abandoned stands for a waiter that cancelled it. */
  datatype Settlement = Value(v: nat) | Failure(exception: nat) | Abandoned

  const CORRELATION_TIMEOUT: nat := 0

  datatype Waiting = Waiting(future: FutureId, deadline: real)

  datatype Late = Late(cid: Cid, value: Settlement, at: real)

  datatype Table = Table(
    pending: map<Cid, Waiting>,
    buffered: seq<Late>,                 // insertion order, one entry per id
    settled: map<FutureId, Settlement>,
    issued: nat)                         // futures created so far

  datatype Tuning = Tuning(maxSize: nat, window: real, defaultTimeout: real)

  // ------------------------------------------------------------ the ordered buffer

  function Find(b: seq<Late>, cid: Cid): Option<Late> {
    if b == [] then None
    else if b[|b| - 1].cid == cid then Some(b[|b| - 1])
    else Find(b[..|b| - 1], cid)
  }

  function Remove(b: seq<Late>, cid: Cid): seq<Late> {
    if b == [] then []
    else Remove(b[..|b| - 1], cid) + (if b[|b| - 1].cid == cid then [] else [b[|b| - 1]])
  }

  /** Assigning to a present key keeps its place. */
  function Replace(b: seq<Late>, e: Late): seq<Late> {
    if b == [] then []
    else Replace(b[..|b| - 1], e) + [if b[|b| - 1].cid == e.cid then e else b[|b| - 1]]
  }

  function DropStale(b: seq<Late>, now: real, window: real): seq<Late> {
    if b == [] then []
    else DropStale(b[..|b| - 1], now, window) + (if now - b[|b| - 1].at > window then [] else [b[|b| - 1]])
  }

  /** _buffer_late_value: evict the oldest entry when a new id meets a full buffer. */
  function BufferLate(b: seq<Late>, e: Late, maxSize: nat): seq<Late> {
    if Find(b, e.cid).Some? then Replace(b, e)
    else if |b| >= maxSize && b != [] then b[1..] + [e]
    else b + [e]
  }

  // ------------------------------------------------------------ operations

  /** `timeout_s or default`: a zero timeout means the default too. */
  function Timeout(timeout: Option<real>, tuning: Tuning): real {
    if timeout.Some? && timeout.value != 0.0 then timeout.value else tuning.defaultTimeout
  }

  function RegisterId(s: Table, cid: Cid, timeout: Option<real>, now: real, tuning: Tuning): Table {
    var found := Find(s.buffered, cid);
    if found.Some? then
      s.(buffered := Remove(s.buffered, cid), settled := s.settled[s.issued := found.value.value],
         issued := s.issued + 1)
    else
      s.(pending := s.pending[cid := Waiting(s.issued, now + Timeout(timeout, tuning))], issued := s.issued + 1)
  }

  /** set_result / set_exception, unless the future is already done. */
  function Settle(settled: map<FutureId, Settlement>, f: FutureId, value: Settlement): map<FutureId, Settlement> {
    if f in settled then settled else settled[f := value]
  }

  /** resolve and reject: settle the registered future, or buffer the value. */
  function Deliver(s: Table, cid: Cid, value: Settlement, now: real, tuning: Tuning): Table {
    if cid in s.pending then
      s.(pending := s.pending - {cid}, settled := Settle(s.settled, s.pending[cid].future, value))
    else
      s.(buffered := BufferLate(s.buffered, Late(cid, value, now), tuning.maxSize))
  }

  function Expired(s: Table, now: real): set<Cid> {
    set cid | cid in s.pending && s.pending[cid].deadline <= now
  }

  function FuturesOf(pending: map<Cid, Waiting>, ids: set<Cid>): set<FutureId> {
    set cid | cid in ids && cid in pending :: pending[cid].future
  }

  /** Give every future of the set that is not yet settled the same settlement. */
  function SettleAll(settled: map<FutureId, Settlement>, futures: set<FutureId>, value: Settlement): map<FutureId, Settlement> {
    map f | f in settled.Keys + futures :: if f in settled then settled[f] else value
  }

  /** Reject a set of registered ids. */
  function RejectIds(s: Table, ids: set<Cid>, exception: nat): Table {
    s.(pending := s.pending - ids,
       settled := SettleAll(s.settled, FuturesOf(s.pending, ids), Failure(exception)))
  }

  /** One tick of the reaper. */
  function Reap(s: Table, now: real, tuning: Tuning): Table {
    var s1 := RejectIds(s, Expired(s, now), CORRELATION_TIMEOUT);
    s1.(buffered := DropStale(s1.buffered, now, tuning.window))
  }

  datatype Op =
    | ORegister(cid: Cid, timeout: Option<real>, now: real)
    | ODeliver(cid: Cid, value: Settlement, now: real)
    | OReap(now: real)
    | ORejectAll(exception: nat)
    | OAbandon(future: FutureId)

  function Apply(s: Table, op: Op, tuning: Tuning): Table {
    match op
    case ORegister(cid, timeout, now) => RegisterId(s, cid, timeout, now, tuning)
    case ODeliver(cid, value, now) => Deliver(s, cid, value, now, tuning)
    case OReap(now) => Reap(s, now, tuning)
    case ORejectAll(exception) => RejectIds(s, s.pending.Keys, exception)
    case OAbandon(f) => if f < s.issued then s.(settled := Settle(s.settled, f, Abandoned)) else s
  }

  function Run(s: Table, ops: seq<Op>, tuning: Tuning): Table
    decreases |ops|
  {
    if ops == [] then s else Apply(Run(s, ops[..|ops| - 1], tuning), ops[|ops| - 1], tuning)
  }

  // ------------------------------------------------------------ invariant

  ghost predicate Unique(b: seq<Late>) {
    forall i, j :: 0 <= i < j < |b| ==> b[i].cid != b[j].cid
  }

  /** Nobody is both awaited and buffered, the buffer respects its cap, and every
      awaited future is its own. */
  ghost predicate Valid(s: Table, tuning: Tuning) {
    && tuning.maxSize >= 1
    && |s.buffered| <= tuning.maxSize
    && Unique(s.buffered)
    && (forall cid :: cid in s.pending ==> Find(s.buffered, cid).None? && s.pending[cid].future < s.issued)
    && (forall a, b :: a in s.pending && b in s.pending && a != b ==> s.pending[a].future != s.pending[b].future)
    && (forall f :: f in s.settled ==> f < s.issued)
  }

  lemma {:induction false} FindSpec(b: seq<Late>, cid: Cid)
    ensures Find(b, cid).Some? ==> Find(b, cid).value in b && Find(b, cid).value.cid == cid
    ensures Find(b, cid).None? <==> forall i :: 0 <= i < |b| ==> b[i].cid != cid
  {
    if b != [] {
      FindSpec(b[..|b| - 1], cid);
      assert b == b[..|b| - 1] + [b[|b| - 1]];
    }
  }

  lemma {:induction false} RemoveSpec(b: seq<Late>, cid: Cid)
    requires Unique(b)
    ensures var r := Remove(b, cid);
            && Unique(r) && |r| <= |b|
            && (forall e :: e in r <==> e in b && e.cid != cid)
  {
    if b != [] {
      var init := b[..|b| - 1];
      assert b == init + [b[|b| - 1]];
      RemoveSpec(init, cid);
      forall i | 0 <= i < |Remove(init, cid)| ensures Remove(init, cid)[i].cid != b[|b| - 1].cid {
        assert Remove(init, cid)[i] in init;
      }
    }
  }

  lemma {:induction false} ReplaceSpec(b: seq<Late>, e: Late)
    requires Unique(b)
    ensures var r := Replace(b, e);
            && |r| == |b| && Unique(r)
            && (forall i :: 0 <= i < |b| ==> r[i] == if b[i].cid == e.cid then e else b[i])
  {
    if b != [] {
      ReplaceSpec(b[..|b| - 1], e);
    }
  }

  lemma {:induction false} DropStaleSpec(b: seq<Late>, now: real, window: real)
    requires Unique(b)
    ensures var r := DropStale(b, now, window);
            && Unique(r) && |r| <= |b|
            && (forall e :: e in r <==> e in b && now - e.at <= window)
  {
    if b != [] {
      var init := b[..|b| - 1];
      assert b == init + [b[|b| - 1]];
      DropStaleSpec(init, now, window);
      forall i | 0 <= i < |DropStale(init, now, window)| ensures DropStale(init, now, window)[i].cid != b[|b| - 1].cid {
        assert DropStale(init, now, window)[i] in init;
      }
    }
  }

  /** No id of `small` is new to `large`. */
  lemma FindSubset(small: seq<Late>, large: seq<Late>, cid: Cid)
    requires forall e :: e in small ==> e in large || e.cid != cid
    ensures Find(large, cid).None? ==> Find(small, cid).None?
  {
    FindSpec(small, cid);
    FindSpec(large, cid);
  }

  lemma BufferLateKeeps(b: seq<Late>, e: Late, maxSize: nat)
    requires maxSize >= 1 && |b| <= maxSize && Unique(b)
    ensures var r := BufferLate(b, e, maxSize);
            && |r| <= maxSize && Unique(r)
            && (forall cid :: cid != e.cid && Find(b, cid).None? ==> Find(r, cid).None?)
  {
    var r := BufferLate(b, e, maxSize);
    FindSpec(b, e.cid);
    ReplaceSpec(b, e);
    forall cid | cid != e.cid && Find(b, cid).None? ensures Find(r, cid).None? {
      FindSpec(b, cid);
      FindSpec(r, cid);
    }
  }

  lemma DeliverKeepsValid(s: Table, cid: Cid, value: Settlement, now: real, tuning: Tuning)
    requires Valid(s, tuning)
    ensures Valid(Deliver(s, cid, value, now, tuning), tuning)
  {
    if cid !in s.pending { BufferLateKeeps(s.buffered, Late(cid, value, now), tuning.maxSize); }
  }

  lemma RegisterKeepsValid(s: Table, cid: Cid, timeout: Option<real>, now: real, tuning: Tuning)
    requires Valid(s, tuning)
    ensures Valid(RegisterId(s, cid, timeout, now, tuning), tuning)
  {
    RemoveSpec(s.buffered, cid);
    forall c | Find(s.buffered, c).None? ensures Find(Remove(s.buffered, cid), c).None? {
      FindSubset(Remove(s.buffered, cid), s.buffered, c);
    }
  }

  lemma ReapKeepsValid(s: Table, now: real, tuning: Tuning)
    requires Valid(s, tuning)
    ensures Valid(Reap(s, now, tuning), tuning)
  {
    DropStaleSpec(s.buffered, now, tuning.window);
    forall c | Find(s.buffered, c).None? ensures Find(DropStale(s.buffered, now, tuning.window), c).None? {
      FindSubset(DropStale(s.buffered, now, tuning.window), s.buffered, c);
    }
  }

  lemma StepKeepsValid(s: Table, op: Op, tuning: Tuning)
    requires Valid(s, tuning)
    ensures Valid(Apply(s, op, tuning), tuning)
  {
    match op
    case ORegister(cid, timeout, now) => RegisterKeepsValid(s, cid, timeout, now, tuning);
    case ODeliver(cid, value, now) => DeliverKeepsValid(s, cid, value, now, tuning);
    case OReap(now) => ReapKeepsValid(s, now, tuning);
    case _ =>
  }

  /** In every run the awaited and the buffered ids stay disjoint and the buffer stays
      within its cap. */
  lemma {:induction false} RunKeepsValid(s: Table, ops: seq<Op>, tuning: Tuning)
    requires Valid(s, tuning)
    ensures Valid(Run(s, ops, tuning), tuning)
    decreases |ops|
  {
    if ops != [] {
      RunKeepsValid(s, ops[..|ops| - 1], tuning);
      StepKeepsValid(Run(s, ops[..|ops| - 1], tuning), ops[|ops| - 1], tuning);
    }
  }

  /** A future, once settled, keeps its settlement. */
  lemma {:induction false} SettledForGood(s: Table, ops: seq<Op>, tuning: Tuning, f: FutureId)
    requires Valid(s, tuning) && f in s.settled
    ensures f in Run(s, ops, tuning).settled && Run(s, ops, tuning).settled[f] == s.settled[f]
    decreases |ops|
  {
    if ops != [] {
      SettledForGood(s, ops[..|ops| - 1], tuning, f);
      RunKeepsValid(s, ops[..|ops| - 1], tuning);
      SettledStep(Run(s, ops[..|ops| - 1], tuning), ops[|ops| - 1], tuning, f);
    }
  }

  lemma SettledStep(s: Table, op: Op, tuning: Tuning, f: FutureId)
    requires f in s.settled && f < s.issued
    ensures f in Apply(s, op, tuning).settled && Apply(s, op, tuning).settled[f] == s.settled[f]
  {
  }

  // ------------------------------------------------------------ early resolution

  /** How many entries were inserted after cid's. */
  function After(b: seq<Late>, cid: Cid): nat
    requires Find(b, cid).Some?
  {
    if b[|b| - 1].cid == cid then 0 else 1 + After(b[..|b| - 1], cid)
  }

  /** The operation buffers an id that was not buffered. */
  predicate Fresh(s: Table, op: Op) {
    op.ODeliver? && op.cid !in s.pending && Find(s.buffered, op.cid).None?
  }

  function CountFresh(s: Table, ops: seq<Op>, tuning: Tuning): nat
    decreases |ops|
  {
    if ops == [] then 0
    else CountFresh(s, ops[..|ops| - 1], tuning)
         + (if Fresh(Run(s, ops[..|ops| - 1], tuning), ops[|ops| - 1]) then 1 else 0)
  }

  /** The operation leaves cid alone; a reaper tick comes within the window of t0. */
  predicate Spares(op: Op, cid: Cid, t0: real, tuning: Tuning) {
    match op
    case ORegister(c, _, _) => c != cid
    case ODeliver(c, _, _) => c != cid
    case OReap(now) => now - t0 <= tuning.window
    case _ => true
  }

  lemma {:induction false} AfterAppend(b: seq<Late>, e: Late, cid: Cid)
    ensures Find(b + [e], cid) == if e.cid == cid then Some(e) else Find(b, cid)
    ensures Find(b + [e], cid).Some? ==>
              After(b + [e], cid) == if e.cid == cid then 0 else 1 + After(b, cid)
  {
    assert (b + [e])[..|b|] == b;
  }

  lemma {:induction false} AfterBound(b: seq<Late>, cid: Cid)
    requires Find(b, cid).Some?
    ensures After(b, cid) < |b|
    ensures b[|b| - 1 - After(b, cid)] == Find(b, cid).value
  {
    if b[|b| - 1].cid != cid { AfterBound(b[..|b| - 1], cid); }
  }

  lemma {:induction false} AfterEvict(b: seq<Late>, cid: Cid)
    requires Find(b, cid).Some? && After(b, cid) + 1 < |b|
    ensures Find(b[1..], cid) == Find(b, cid) && After(b[1..], cid) == After(b, cid)
  {
    if b[|b| - 1].cid != cid {
      var init := b[..|b| - 1];
      AfterEvict(init, cid);
      assert b[1..][..|b[1..]| - 1] == init[1..];
    }
  }

  lemma {:induction false} AfterRemove(b: seq<Late>, other: Cid, cid: Cid)
    requires Find(b, cid).Some? && other != cid
    ensures Find(Remove(b, other), cid) == Find(b, cid) && After(Remove(b, other), cid) <= After(b, cid)
  {
    var init, last := b[..|b| - 1], b[|b| - 1];
    if last.cid == cid {
      AfterAppend(Remove(init, other), last, cid);
    } else {
      AfterRemove(init, other, cid);
      if last.cid != other { AfterAppend(Remove(init, other), last, cid); }
      else { assert Remove(b, other) == Remove(init, other); }
    }
  }

  lemma {:induction false} AfterReplace(b: seq<Late>, e: Late, cid: Cid)
    requires Find(b, cid).Some? && e.cid != cid
    ensures Find(Replace(b, e), cid) == Find(b, cid) && After(Replace(b, e), cid) == After(b, cid)
  {
    var init, last := b[..|b| - 1], b[|b| - 1];
    if last.cid != cid { AfterReplace(init, e, cid); }
    AfterAppend(Replace(init, e), if last.cid == e.cid then e else last, cid);
  }

  lemma {:induction false} AfterDropStale(b: seq<Late>, now: real, window: real, cid: Cid)
    requires Find(b, cid).Some? && now - Find(b, cid).value.at <= window
    ensures Find(DropStale(b, now, window), cid) == Find(b, cid)
    ensures After(DropStale(b, now, window), cid) <= After(b, cid)
  {
    var init, last := b[..|b| - 1], b[|b| - 1];
    if last.cid == cid {
      AfterAppend(DropStale(init, now, window), last, cid);
    } else {
      AfterDropStale(init, now, window, cid);
      if now - last.at <= window { AfterAppend(DropStale(init, now, window), last, cid); }
      else { assert DropStale(b, now, window) == DropStale(init, now, window); }
    }
  }

  /** Re-buffering an id keeps its place in the eviction order. */
  lemma {:induction false} RebufferKeepsPlace(b: seq<Late>, e: Late, maxSize: nat)
    requires Find(b, e.cid).Some?
    ensures Find(BufferLate(b, e, maxSize), e.cid) == Some(e)
    ensures After(BufferLate(b, e, maxSize), e.cid) == After(b, e.cid)
  {
    ReplaceSame(b, e);
  }

  lemma {:induction false} ReplaceSame(b: seq<Late>, e: Late)
    requires Find(b, e.cid).Some?
    ensures Find(Replace(b, e), e.cid) == Some(e) && After(Replace(b, e), e.cid) == After(b, e.cid)
  {
    var init, last := b[..|b| - 1], b[|b| - 1];
    if last.cid != e.cid { ReplaceSame(init, e); }
    AfterAppend(Replace(init, e), if last.cid == e.cid then e else last, e.cid);
  }

  /** One operation moves cid's entry at most one place towards eviction, and only by
      buffering a fresh id. */
  lemma SparedStep(s: Table, op: Op, tuning: Tuning, cid: Cid, e: Late)
    requires Valid(s, tuning) && Find(s.buffered, cid) == Some(e) && Spares(op, cid, e.at, tuning)
    requires After(s.buffered, cid) + 1 < tuning.maxSize || !Fresh(s, op)
    ensures var s' := Apply(s, op, tuning);
            && Find(s'.buffered, cid) == Some(e)
            && After(s'.buffered, cid) <= After(s.buffered, cid) + (if Fresh(s, op) then 1 else 0)
  {
    match op
    case ORegister(c, _, _) => AfterRemove(s.buffered, c, cid);
    case ODeliver(c, value, now) =>
      var entry := Late(c, value, now);
      AfterBound(s.buffered, cid);
      if Fresh(s, op) {
        if |s.buffered| >= tuning.maxSize {
          AfterEvict(s.buffered, cid);
          AfterAppend(s.buffered[1..], entry, cid);
        } else {
          AfterAppend(s.buffered, entry, cid);
        }
      } else if c !in s.pending {
        AfterReplace(s.buffered, entry, cid);
      }
    case OReap(now) => AfterDropStale(s.buffered, now, tuning.window, cid);
    case _ =>
  }

  lemma {:induction false} SparedRun(s: Table, ops: seq<Op>, tuning: Tuning, cid: Cid, e: Late)
    requires Valid(s, tuning) && Find(s.buffered, cid) == Some(e) && After(s.buffered, cid) == 0
    requires forall i :: 0 <= i < |ops| ==> Spares(ops[i], cid, e.at, tuning)
    requires CountFresh(s, ops, tuning) < tuning.maxSize
    ensures var s' := Run(s, ops, tuning);
            Find(s'.buffered, cid) == Some(e) && After(s'.buffered, cid) <= CountFresh(s, ops, tuning)
    decreases |ops|
  {
    if ops != [] {
      SparedRun(s, ops[..|ops| - 1], tuning, cid, e);
      RunKeepsValid(s, ops[..|ops| - 1], tuning);
      SparedStep(Run(s, ops[..|ops| - 1], tuning), ops[|ops| - 1], tuning, cid, e);
    }
  }

  /** A value that arrives before its id is registered reaches the later future exactly as
      it would have reached an earlier one: whatever else happens in between, provided
      fewer than maxSize fresh ids were buffered meanwhile and no reaper tick came more
      than the window after the value. */
  lemma EarlyValueReachesLateFuture(s: Table, cid: Cid, value: Settlement, t0: real, ops: seq<Op>,
                                    timeout: Option<real>, now: real, tuning: Tuning)
    requires Valid(s, tuning) && cid !in s.pending && Find(s.buffered, cid).None?
    requires forall i :: 0 <= i < |ops| ==> Spares(ops[i], cid, t0, tuning)
    requires CountFresh(Deliver(s, cid, value, t0, tuning), ops, tuning) < tuning.maxSize
    ensures var early := Run(Deliver(s, cid, value, t0, tuning), ops, tuning);
            var late := RegisterId(early, cid, timeout, now, tuning);
            var swapped := Deliver(RegisterId(s, cid, timeout, t0, tuning), cid, value, t0, tuning);
            && early.issued in late.settled && s.issued in swapped.settled
            && late.settled[early.issued] == swapped.settled[s.issued] == value
            && cid !in late.pending && Find(late.buffered, cid).None?
            && cid !in swapped.pending && Find(swapped.buffered, cid).None?
  {
    var a := Deliver(s, cid, value, t0, tuning);
    var e := Late(cid, value, t0);
    DeliverKeepsValid(s, cid, value, t0, tuning);
    if |s.buffered| >= tuning.maxSize { AfterAppend(s.buffered[1..], e, cid); } else { AfterAppend(s.buffered, e, cid); }
    SparedRun(a, ops, tuning, cid, e);
    RunKeepsValid(a, ops, tuning);
    var early := Run(a, ops, tuning);
    RemoveSpec(early.buffered, cid);
    FindSpec(Remove(early.buffered, cid), cid);
  }

  /** A run of deliveries that all buffer fresh ids. */
  ghost predicate Flood(s: Table, ops: seq<Op>, tuning: Tuning) {
    forall i :: 0 <= i < |ops| ==> Fresh(Run(s, ops[..i], tuning), ops[i])
  }

  /** The bound is exact: under a flood of fresh ids the value survives precisely as long
      as fewer than maxSize of them have come. */
  lemma {:induction false} FloodEvictsAtTheCap(s: Table, ops: seq<Op>, tuning: Tuning, cid: Cid)
    requires Valid(s, tuning) && Find(s.buffered, cid).Some? && After(s.buffered, cid) == 0
    requires Flood(s, ops, tuning) && forall i :: 0 <= i < |ops| ==> ops[i].cid != cid
    ensures var b := Run(s, ops, tuning).buffered;
            && (Find(b, cid).Some? <==> |ops| < tuning.maxSize)
            && (|ops| < tuning.maxSize ==> After(b, cid) == |ops|)
            && (|ops| < |b| || |b| == tuning.maxSize)
    decreases |ops|
  {
    if ops == [] {
      AfterBound(s.buffered, cid);
    } else {
      var init, op := ops[..|ops| - 1], ops[|ops| - 1];
      forall i | 0 <= i < |init| ensures Fresh(Run(s, init[..i], tuning), init[i]) {
        assert init[..i] == ops[..i];
        assert Fresh(Run(s, ops[..i], tuning), ops[i]);
      }
      FloodEvictsAtTheCap(s, init, tuning, cid);
      RunKeepsValid(s, init, tuning);
      var b := Run(s, init, tuning).buffered;
      var e := Late(op.cid, op.value, op.now);
      if Find(b, cid).Some? { AfterBound(b, cid); }
      if |b| >= tuning.maxSize {
        AfterAppend(b[1..], e, cid);
        if Find(b, cid).Some? && After(b, cid) + 1 < |b| {
          AfterEvict(b, cid);
        } else {
          FindSpec(b, cid);
          FindSpec(b[1..], cid);
          if Find(b, cid).Some? { assert b[0].cid == cid; }
        }
      } else {
        AfterAppend(b, e, cid);
      }
    }
  }

  /** A value that nobody waits for is in the buffer afterwards. */
  lemma Buffered(b: seq<Late>, e: Late, maxSize: nat)
    ensures Find(BufferLate(b, e, maxSize), e.cid) == Some(e)
  {
    if Find(b, e.cid).Some? { ReplaceSame(b, e); } else { AfterAppend(b, e, e.cid); if b != [] { AfterAppend(b[1..], e, e.cid); } }
  }

  /** These ids wait no longer, and their open futures failed; all else is as it was. */
  ghost predicate RejectedAre(s: Table, s1: Table, ids: set<Cid>, exception: nat) {
    && (forall cid :: cid in s1.pending <==> cid in s.pending && cid !in ids)
    && (forall cid :: cid in s1.pending ==> s1.pending[cid] == s.pending[cid])
    && (forall cid :: cid in s.pending && cid in ids ==> s.pending[cid].future in s1.settled)
    && (forall f :: f in s.settled ==> f in s1.settled)
    && (forall f :: f in s1.settled ==> if f in s.settled then s1.settled[f] == s.settled[f]
          else s1.settled[f] == Failure(exception) && exists cid :: cid in s.pending && cid in ids && s.pending[cid].future == f)
    && s1.issued == s.issued
  }

  /** A registration takes the value buffered for its id, if any, and else waits so long. */
  ghost predicate Registered(s: Table, s1: Table, cid: Cid, now: real, wait: real) {
    && s1.issued == s.issued + 1
    && match Find(s.buffered, cid)
       case Some(late) =>
         && s1.settled == s.settled[s.issued := late.value] && s1.pending == s.pending
         && forall e :: e in s1.buffered <==> e in s.buffered && e.cid != cid
       case None =>
         s1.settled == s.settled && s1.buffered == s.buffered && s1.pending == s.pending[cid := Waiting(s.issued, now + wait)]
  }

  lemma RegisterIsTaken(s: Table, cid: Cid, timeout: Option<real>, now: real, tuning: Tuning)
    requires Valid(s, tuning)
    ensures Registered(s, RegisterId(s, cid, timeout, now, tuning), cid, now,
                       if timeout.Some? && timeout.value != 0.0 then timeout.value else tuning.defaultTimeout)
  {
    RemoveSpec(s.buffered, cid);
  }

  /** The due waiters time out, and the values older than the window go. */
  ghost predicate Reaped(s: Table, s1: Table, now: real, window: real) {
    && RejectedAre(s, s1, (set cid | cid in s.pending && s.pending[cid].deadline <= now), CORRELATION_TIMEOUT)
    && forall e :: e in s1.buffered <==> e in s.buffered && now - e.at <= window
  }

  lemma ReapIsTaken(s: Table, now: real, tuning: Tuning)
    requires Valid(s, tuning)
    ensures Reaped(s, Reap(s, now, tuning), now, tuning.window)
  {
    DropStaleSpec(s.buffered, now, tuning.window);
    RejectingRejects(s, Expired(s, now), CORRELATION_TIMEOUT);
  }

  lemma RejectingRejects(s: Table, ids: set<Cid>, exception: nat)
    ensures RejectedAre(s, RejectIds(s, ids, exception), ids, exception)
  {
    forall cid | cid in s.pending && cid in ids ensures s.pending[cid].future in FuturesOf(s.pending, ids) {}
  }

  /** PendingMap. Futures are numbered in creation order; `settled` is their outcomes. */
  class PendingMap {
    const tuning: Tuning
    var pending: map<Cid, Waiting>
    var buffered: seq<Late>
    var settled: map<FutureId, Settlement>
    var issued: nat

    function Now(): Table
      reads this
    {
      Table(pending, buffered, settled, issued)
    }

    ghost predicate Ok()
      reads this
    {
      Valid(Now(), tuning)
    }

    constructor (tuning: Tuning)
      requires tuning.maxSize >= 1
      ensures Ok() && Now() == Table(map[], [], map[], 0)
    {
      this.tuning := tuning;
      pending, buffered, settled, issued := map[], [], map[], 0;
    }

    method Register(cid: Cid, timeout: Option<real>, now: real) returns (fut: FutureId)
      requires Ok()
      modifies this
      ensures Ok() && fut == old(issued)
      ensures Now() == RegisterId(old(Now()), cid, timeout, now, tuning)
      ensures Registered(old(Now()), Now(), cid, now, if timeout.Some? && timeout.value != 0.0 then timeout.value else tuning.defaultTimeout)
    {
      RegisterIsTaken(Now(), cid, timeout, now, tuning);
      RegisterKeepsValid(Now(), cid, timeout, now, tuning);
      fut := issued;
      issued := issued + 1;
      var found := Find(buffered, cid);
      if found.Some? {
        buffered := Remove(buffered, cid);
        settled := settled[fut := found.value.value];
        return;
      }
      var wait := if timeout.Some? && timeout.value != 0.0 then timeout.value else tuning.defaultTimeout;
      pending := pending[cid := Waiting(fut, now + wait)];
    }

    method SettleFuture(f: FutureId, value: Settlement)
      modifies this`settled
      ensures settled == Settle(old(settled), f, value)
    {
      if f !in settled { settled := settled[f := value]; }
    }

    /** resolve, and reject with an exception for a value: true iff someone was waiting. */
    method Resolve(cid: Cid, value: Settlement, now: real) returns (matched: bool)
      requires Ok()
      modifies this
      ensures Ok() && matched == (cid in old(pending))
      ensures Now() == Deliver(old(Now()), cid, value, now, tuning)
      ensures matched ==>
                && pending == old(pending) - {cid} && buffered == old(buffered)
                && var f := old(pending)[cid].future;
                   settled == if f in old(settled) then old(settled) else old(settled)[f := value]
      ensures !matched ==>
                pending == old(pending) && settled == old(settled) && Find(buffered, cid) == Some(Late(cid, value, now))
    {
      Buffered(buffered, Late(cid, value, now), tuning.maxSize);
      DeliverKeepsValid(Now(), cid, value, now, tuning);
      if cid !in pending {
        BufferLateValue(cid, value, now);
        return false;
      }
      var entry := pending[cid];
      pending := pending - {cid};
      SettleFuture(entry.future, value);
      return true;
    }

    method BufferLateValue(cid: Cid, value: Settlement, now: real)
      modifies this`buffered
      ensures buffered == BufferLate(old(buffered), Late(cid, value, now), tuning.maxSize)
    {
      var place := Find(buffered, cid);
      if |buffered| >= tuning.maxSize && place.None? && buffered != [] {
        buffered := buffered[1..];
      }
      if place.Some? {
        buffered := Replace(buffered, Late(cid, value, now));
      } else {
        buffered := buffered + [Late(cid, value, now)];
      }
    }

    method RejectNext(cid: Cid, exception: nat, now: real, ghost before: Table, ghost done: set<Cid>) returns (matched: bool)
      requires Ok() && Now() == RejectIds(before, done, exception)
      requires done + {cid} <= before.pending.Keys && cid !in done
      modifies this
      ensures Ok() && matched && Now() == RejectIds(before, done + {cid}, exception)
    {
      RejectOneMore(before, done, cid, exception, now, tuning);
      matched := Resolve(cid, Failure(exception), now);
    }

    /** The loop of reject_all and of the reaper: reject each id in turn. */
    method RejectEach(ids: set<Cid>, exception: nat, now: real) returns (rejected: nat)
      requires Ok() && ids <= pending.Keys
      modifies this
      ensures Ok() && rejected == |ids|
      ensures Now() == RejectIds(old(Now()), ids, exception)
    {
      ghost var before, done := Now(), {};
      var todo := ids;
      rejected := 0;
      RejectNone(before, exception);
      while todo != {}
        invariant done !! todo && done + todo == ids && rejected == |done| && Ok()
        invariant Now() == RejectIds(before, done, exception)
        decreases todo
      {
        var cid :| cid in todo;
        var matched := RejectNext(cid, exception, now, before, done);
        if matched { rejected := rejected + 1; }
        MoveOver(todo, done, cid);
        todo, done := todo - {cid}, done + {cid};
      }
      assert done == ids;
    }

    method RejectAll(exception: nat, now: real) returns (rejected: nat)
      requires Ok()
      modifies this
      ensures Ok() && rejected == |old(pending).Keys| && pending == map[]
      ensures Now() == Apply(old(Now()), ORejectAll(exception), tuning)
      ensures RejectedAre(old(Now()), Now(), old(pending).Keys, exception) && buffered == old(buffered)
    {
      RejectingRejects(Now(), pending.Keys, exception);
      rejected := RejectEach(pending.Keys, exception, now);
    }

    /** One tick of the reaper. */
    method ReapOnce(now: real)
      requires Ok()
      modifies this
      ensures Ok() && Now() == Reap(old(Now()), now, tuning)
      ensures Reaped(old(Now()), Now(), now, tuning.window)
    {
      ReapIsTaken(Now(), now, tuning);
      ReapKeepsValid(Now(), now, tuning);
      var rejected := RejectEach(Expired(Now(), now), CORRELATION_TIMEOUT, now);
      buffered := DropStale(buffered, now, tuning.window);
    }
  }

  lemma MoveOver(from: set<Cid>, to: set<Cid>, cid: Cid)
    requires cid in from && from !! to
    ensures (from - {cid}) !! (to + {cid}) && (from - {cid}) + (to + {cid}) == from + to
    ensures |to + {cid}| == |to| + 1
  {
  }

  lemma RejectNone(s: Table, exception: nat)
    ensures RejectIds(s, {}, exception) == s
  {
    assert FuturesOf(s.pending, {}) == {};
    assert SettleAll(s.settled, {}, Failure(exception)) == s.settled;
  }

  lemma RejectOneMore(s: Table, done: set<Cid>, cid: Cid, exception: nat, now: real, tuning: Tuning)
    requires done + {cid} <= s.pending.Keys && cid !in done
    ensures cid in RejectIds(s, done, exception).pending
    ensures Deliver(RejectIds(s, done, exception), cid, Failure(exception), now, tuning)
            == RejectIds(s, done + {cid}, exception)
  {
    var f, futures := s.pending[cid].future, FuturesOf(s.pending, done);
    assert s.pending - done - {cid} == s.pending - (done + {cid});
    assert FuturesOf(s.pending, done + {cid}) == futures + {f};
    SettleOneMore(s.settled, futures, f, Failure(exception));
  }

  lemma SettleOneMore(settled: map<FutureId, Settlement>, futures: set<FutureId>, f: FutureId, value: Settlement)
    ensures Settle(SettleAll(settled, futures, value), f, value) == SettleAll(settled, futures + {f}, value)
  {
  }
}
