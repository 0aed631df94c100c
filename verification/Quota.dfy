/** The quota gate and the allocation as separate steps, which they are in the code
    (bp_router/dispatch.py): any number of one user's commands may have passed the gate, or
    have read the row they move, before any of them allocates. */
module Quota {
  import opened Options
  import opened StashNames
  import opened FileStore

  /** An allocation to come: store, write, copy and move all end in one. */
  datatype Ticket = Ticket(scope: string, name: string, row: Row, dedup: Dedup)

  /** A ticket whose gate let `add` more bytes through, or a move, which passes no gate and
      has read its source row. */
  datatype Flight = Gated(ticket: Ticket, add: nat) | Moving(from: Key, ticket: Ticket)

  /** The directory, the commands before their allocation, and the books: bytes let through,
      bytes an allocation added beyond what its gate was asked or short of it, bytes freed,
      and the most that was outstanding when a gate let more through. */
  datatype Books = Books(names: Names, inflight: map<nat, Flight>, ceiling: nat,
                         passed: nat, beyond: nat, short: nat, freed: nat, overlap: nat)

  ghost function Open(names: Names, ceiling: nat): Books {
    Books(names, map[], ceiling, 0, 0, 0, 0, 0)
  }

  /** The name is already bound to the blob. */
  predicate Seen(names: Names, t: Ticket) {
    Bound(names, (t.scope, t.name), t.row.file)
  }

  /** What the gate is asked for: nothing when the name was seen bound to the blob. */
  function Asked(t: Ticket, seen: bool): nat {
    if seen then 0 else t.row.size
  }

  /** What a command in flight was let through, or, in full, the size of its blob. */
  function Weight(f: Flight, full: bool): nat {
    if full then f.ticket.row.size else if f.Gated? then f.add else 0
  }

  ghost function Sum(inflight: map<nat, Flight>, full: bool): nat {
    if inflight == map[] then 0
    else
      var id :| id in inflight;
      Weight(inflight[id], full) + Sum(inflight - {id}, full)
  }

  ghost function Outstanding(inflight: map<nat, Flight>): nat {
    Sum(inflight, false)
  }

  /** A gate's reads are two: of the name, which `seen` records and may be out of date, and
      of the usage, which the step compares. */
  datatype Step =
    | Gate(id: nat, ticket: Ticket, seen: bool)
    | Commit(id: nat)
    | MoveRead(id: nat, from: Key, scope: string, name: string)
    | MoveCommit(id: nat)
    | Drop(gone: set<Key>)               // a delete

  ghost function GateStep(b: Books, id: nat, t: Ticket, seen: bool): Books {
    var add := Asked(t, seen);
    if id in b.inflight || !QuotaOk(b.names, add, Some(b.ceiling)) then b
    else
      b.(inflight := b.inflight[id := Gated(t, add)], passed := b.passed + add,
         overlap := if add > 0 && Outstanding(b.inflight) > b.overlap then Outstanding(b.inflight) else b.overlap)
  }

  function Allocated(names: Names, t: Ticket): (Names, Allocation) {
    Allocate(names, t.scope, t.name, t.row, t.dedup)
  }

  function Added(outcome: Allocation): int {
    if outcome.Saved? then outcome.added else 0
  }

  ghost function CommitStep(b: Books, id: nat): Books
    requires id in b.inflight && b.inflight[id].Gated?
  {
    var g := b.inflight[id];
    var extra := Added(Allocated(b.names, g.ticket).1) - g.add;
    b.(names := Allocated(b.names, g.ticket).0, inflight := b.inflight - {id},
       beyond := b.beyond + (if extra > 0 then extra else 0),
       short := b.short + (if extra < 0 then -extra else 0))
  }

  /** The move's transaction: allocate the row that was read, delete the source if it is
      still there. */
  function MoveNames(names: Names, from: Key, t: Ticket): Names {
    var (after, outcome) := Allocated(names, t);
    if outcome.Saved? then after - {from} else names
  }

  /** What the move's transaction adds: its allocation, less the source row it deletes. */
  function MoveAdds(names: Names, from: Key, t: Ticket): int {
    var (after, outcome) := Allocated(names, t);
    if outcome.FilenameExists? then 0 else outcome.added - (if from in after then after[from].size else 0)
  }

  ghost function MoveStep(b: Books, id: nat): Books
    requires id in b.inflight && b.inflight[id].Moving?
  {
    var m := b.inflight[id];
    var growth := MoveAdds(b.names, m.from, m.ticket);
    b.(names := MoveNames(b.names, m.from, m.ticket), inflight := b.inflight - {id},
       beyond := b.beyond + (if growth > 0 then growth else 0),
       freed := b.freed + (if growth < 0 then -growth else 0))
  }

  ghost function Apply(b: Books, step: Step): Books {
    match step
    case Gate(id, t, seen) => GateStep(b, id, t, seen)
    case Commit(id) => if id in b.inflight && b.inflight[id].Gated? then CommitStep(b, id) else b
    case MoveRead(id, from, scope, name) =>
      if id in b.inflight || from !in b.names || from == (scope, name) then b
      else b.(inflight := b.inflight[id := Moving(from, Ticket(scope, name, b.names[from], AppendCount))])
    case MoveCommit(id) => if id in b.inflight && b.inflight[id].Moving? then MoveStep(b, id) else b
    case Drop(gone) =>
      UsageSubset(b.names, gone);
      b.(names := b.names - gone, freed := b.freed + Usage(b.names) - Usage(b.names - gone))
  }

  ghost function Run(b: Books, steps: seq<Step>): Books
    decreases |steps|
  {
    if steps == [] then b else Apply(Run(b, steps[..|steps| - 1]), steps[|steps| - 1])
  }

  lemma RunSnoc(b: Books, steps: seq<Step>, step: Step)
    ensures Run(b, steps + [step]) == Apply(Run(b, steps), step)
  {
    assert (steps + [step])[..|steps + [step]| - 1] == steps;
  }

  lemma {:induction false} RunConcat(b: Books, a: seq<Step>, c: seq<Step>)
    ensures Run(b, a + c) == Run(Run(b, a), c)
    decreases |c|
  {
    if c == [] {
      assert a + c == a;
    } else {
      assert (a + c)[..|a + c| - 1] == a + c[..|c| - 1];
      RunConcat(b, a, c[..|c| - 1]);
    }
  }

  // ------------------------------------------------------------ the books balance

  lemma {:induction false} SumRemove(inflight: map<nat, Flight>, full: bool, id: nat)
    requires id in inflight
    ensures Sum(inflight, full) == Weight(inflight[id], full) + Sum(inflight - {id}, full)
    decreases |inflight|
  {
    var p :| p in inflight && Sum(inflight, full) == Weight(inflight[p], full) + Sum(inflight - {p}, full);
    if p != id {
      SumRemove(inflight - {p}, full, id);
      SumRemove(inflight - {id}, full, p);
      assert inflight - {p} - {id} == inflight - {id} - {p};
    }
  }

  lemma SumAdd(inflight: map<nat, Flight>, full: bool, id: nat, f: Flight)
    requires id !in inflight
    ensures Sum(inflight[id := f], full) == Sum(inflight, full) + Weight(f, full)
  {
    SumRemove(inflight[id := f], full, id);
    assert inflight[id := f] - {id} == inflight;
  }

  lemma MoveGrows(names: Names, from: Key, t: Ticket)
    ensures Usage(MoveNames(names, from, t)) == Usage(names) + MoveAdds(names, from, t)
  {
    AllocateBinds(names, t.scope, t.name, t.row, t.dedup);
    var (after, outcome) := Allocated(names, t);
    if outcome.Saved? {
      if from in after { UsageRemove(after, from); } else { assert after - {from} == after; }
    }
  }

  /** Conservation, and the bound it is worth. */
  ghost predicate Balanced(start: Books, b: Books) {
    var bound := if Usage(start.names) <= start.ceiling then start.ceiling else Usage(start.names);
    && b.ceiling == start.ceiling
    && Usage(b.names) + Outstanding(b.inflight) + b.short + b.freed == Usage(start.names) + b.passed + b.beyond
    && Usage(b.names) + Outstanding(b.inflight) <= bound + b.overlap + b.beyond
  }

  lemma StepBalanced(start: Books, b: Books, step: Step)
    requires Balanced(start, b)
    ensures Balanced(start, Apply(b, step))
  {
    match step
    case Gate(id, t, seen) =>
      if id !in b.inflight { SumAdd(b.inflight, false, id, Gated(t, Asked(t, seen))); }
    case Commit(id) =>
      if id in b.inflight && b.inflight[id].Gated? {
        var t := b.inflight[id].ticket;
        SumRemove(b.inflight, false, id);
        AllocateBinds(b.names, t.scope, t.name, t.row, t.dedup);
      }
    case MoveRead(id, from, scope, name) =>
      if id !in b.inflight && from in b.names {
        SumAdd(b.inflight, false, id, Moving(from, Ticket(scope, name, b.names[from], AppendCount)));
      }
    case MoveCommit(id) =>
      if id in b.inflight && b.inflight[id].Moving? {
        SumRemove(b.inflight, false, id);
        MoveGrows(b.names, b.inflight[id].from, b.inflight[id].ticket);
      }
    case Drop(gone) => UsageSubset(b.names, gone);
  }

  lemma {:induction false} BooksBalance(names: Names, ceiling: nat, steps: seq<Step>)
    ensures Balanced(Open(names, ceiling), Run(Open(names, ceiling), steps))
    decreases |steps|
  {
    if steps != [] {
      BooksBalance(names, ceiling, steps[..|steps| - 1]);
      StepBalanced(Open(names, ceiling), Run(Open(names, ceiling), steps[..|steps| - 1]), steps[|steps| - 1]);
    }
  }

  /** How far the ceiling can be exceeded. With everything outstanding added, usage is at
      most the ceiling, plus the most that was outstanding when a gate let more through,
      plus what allocations added that no gate was asked for. Gates that never overlap,
      names that keep the blob their gate saw, and moves whose source is still there leave
      nothing of the last two. */
  lemma OverrunBound(names: Names, ceiling: nat, steps: seq<Step>)
    requires Usage(names) <= ceiling
    ensures var b := Run(Open(names, ceiling), steps);
            && Usage(b.names) + Outstanding(b.inflight) <= ceiling + b.overlap + b.beyond
            && (b.overlap == 0 && b.beyond == 0 ==> Usage(b.names) <= ceiling)
  {
    BooksBalance(names, ceiling, steps);
  }

  // ------------------------------------------------------------ when the ceiling holds

  /** What a step would add to the directory if it ran now. */
  function AddsNow(b: Books, step: Step): int {
    match step
    case Commit(id) =>
      if id in b.inflight && b.inflight[id].Gated? then Added(Allocated(b.names, b.inflight[id].ticket).1) else 0
    case MoveCommit(id) =>
      if id in b.inflight && b.inflight[id].Moving? then MoveAdds(b.names, b.inflight[id].from, b.inflight[id].ticket) else 0
    case _ => 0
  }

  /** An allocation that adds more than the room there is when it runs. */
  ghost predicate Overfills(b: Books, step: Step) {
    AddsNow(b, step) > 0 && AddsNow(b, step) > b.ceiling - Usage(b.names)
  }

  ghost predicate EveryWithin(b: Books, steps: seq<Step>) {
    forall n :: 0 <= n <= |steps| ==> Usage(Run(b, steps[..n]).names) <= b.ceiling
  }

  ghost predicate NothingOverfills(b: Books, steps: seq<Step>) {
    forall n :: 0 <= n < |steps| ==> !Overfills(Run(b, steps[..n]), steps[n])
  }

  lemma StepWithinExactlyWhen(b: Books, step: Step)
    requires Usage(b.names) <= b.ceiling
    ensures Apply(b, step).ceiling == b.ceiling
    ensures Usage(Apply(b, step).names) <= b.ceiling <==> !Overfills(b, step)
  {
    match step
    case Commit(id) =>
      if id in b.inflight && b.inflight[id].Gated? {
        var t := b.inflight[id].ticket;
        AllocateBinds(b.names, t.scope, t.name, t.row, t.dedup);
      }
    case MoveCommit(id) =>
      if id in b.inflight && b.inflight[id].Moving? { MoveGrows(b.names, b.inflight[id].from, b.inflight[id].ticket); }
    case Drop(gone) => UsageSubset(b.names, gone);
    case _ =>
  }

  lemma {:induction false} CeilingStays(b: Books, steps: seq<Step>)
    ensures Run(b, steps).ceiling == b.ceiling
    decreases |steps|
  {
    if steps != [] { CeilingStays(b, steps[..|steps| - 1]); }
  }

  lemma PrefixesWithin(b: Books, steps: seq<Step>)
    requires steps != []
    ensures EveryWithin(b, steps) <==> EveryWithin(b, steps[..|steps| - 1]) && Usage(Run(b, steps).names) <= b.ceiling
  {
    var init := steps[..|steps| - 1];
    assert steps[..|steps|] == steps;
    forall n | 0 <= n <= |init| ensures init[..n] == steps[..n] {}
    if EveryWithin(b, steps) {
      forall n | 0 <= n <= |init| ensures Usage(Run(b, init[..n]).names) <= b.ceiling {
        assert Usage(Run(b, steps[..n]).names) <= b.ceiling;
      }
      assert Usage(Run(b, steps[..|steps|]).names) <= b.ceiling;
    }
    if EveryWithin(b, init) && Usage(Run(b, steps).names) <= b.ceiling {
      forall n | 0 <= n <= |steps| ensures Usage(Run(b, steps[..n]).names) <= b.ceiling {
        if n < |steps| { assert Usage(Run(b, init[..n]).names) <= b.ceiling; }
      }
    }
  }

  lemma PrefixesOverfill(b: Books, steps: seq<Step>)
    requires steps != []
    ensures NothingOverfills(b, steps) <==>
            NothingOverfills(b, steps[..|steps| - 1]) && !Overfills(Run(b, steps[..|steps| - 1]), steps[|steps| - 1])
  {
    var init := steps[..|steps| - 1];
    forall n | 0 <= n <= |init| ensures init[..n] == steps[..n] {}
    if NothingOverfills(b, steps) {
      forall n | 0 <= n < |init| ensures !Overfills(Run(b, init[..n]), init[n]) {
        assert !Overfills(Run(b, steps[..n]), steps[n]);
      }
      assert !Overfills(Run(b, steps[..|init|]), steps[|init|]);
    }
    if NothingOverfills(b, init) && !Overfills(Run(b, init), steps[|init|]) {
      forall n | 0 <= n < |steps| ensures !Overfills(Run(b, steps[..n]), steps[n]) {
        if n < |init| { assert !Overfills(Run(b, init[..n]), init[n]); }
      }
    }
  }

  /** Every state of a run of overlapping commands is within the ceiling exactly when no
      allocation adds more than the room there is when it runs. */
  lemma {:induction false} WithinCeilingExactlyWhen(b: Books, steps: seq<Step>)
    requires Usage(b.names) <= b.ceiling
    ensures EveryWithin(b, steps) <==> NothingOverfills(b, steps)
    decreases |steps|
  {
    if steps == [] {
      assert steps[..0] == [];
    } else {
      var init := steps[..|steps| - 1];
      WithinCeilingExactlyWhen(b, init);
      PrefixesWithin(b, steps);
      PrefixesOverfill(b, steps);
      CeilingStays(b, init);
      if EveryWithin(b, init) {
        assert init[..|init|] == init && Usage(Run(b, init[..|init|]).names) <= b.ceiling;
        StepWithinExactlyWhen(Run(b, init), steps[|init|]);
      }
    }
  }

  // ------------------------------------------------------------ commands as steps

  /** What a command does once its checks before the gate have passed. */
  ghost function StepsOf(s: Store, session: string, c: Command, limits: Limits): seq<Step> {
    match c
    case StoreFile(sha, asked, persistent, dedup) =>
      if sha !in s.blobs || !ValidBare(ChosenName(asked, s.blobs[sha], limits)) then []
      else
        var blob := s.blobs[sha];
        GateAndCommit(s.names, Ticket(ScopeFor(persistent, session), ChosenName(asked, blob, limits), Row(blob.file, blob.size), dedup))
    case WriteFile(content, newFile, filename, persistent, dedup) =>
      if !ValidBare(filename) || content.size > limits.maxUpload then []
      else
        var file := if content.sha in s.blobs then s.blobs[content.sha].file else newFile;
        GateAndCommit(s.names, Ticket(ScopeFor(persistent, session), filename, Row(file, content.size), dedup))
    case CopyFile(src, dst, move) =>
      var from, to := SplitStashName(src), SplitStashName(dst);
      if from.None? || to.None? then []
      else
        var fromKey, toKey := (ScopeFor(from.value.persistent, session), from.value.bare),
                              (ScopeFor(to.value.persistent, session), to.value.bare);
        if fromKey !in s.names || fromKey == toKey then []
        else if move then [MoveRead(0, fromKey, toKey.0, toKey.1), MoveCommit(0)]
        else GateAndCommit(s.names, Ticket(toKey.0, toKey.1, s.names[fromKey], AppendCount))
    case DeleteFile(name) =>
      var persistent := PERSIST <= name;
      var bare := if persistent then name[|PERSIST|..] else name;
      if bare == "" || '/' in bare then [] else [Drop(DeletedKeys(s.names, ScopeFor(persistent, session), bare))]
  }

  function GateAndCommit(names: Names, t: Ticket): seq<Step> {
    [Gate(0, t, Seen(names, t)), Commit(0)]
  }

  lemma TwoSteps(b: Books, x: Step, y: Step)
    ensures Run(b, [x]) == Apply(b, x)
    ensures Run(b, [x, y]) == Apply(Apply(b, x), y)
  {
    RunSnoc(b, [], x);
    RunSnoc(b, [x], y);
    assert [] + [x] == [x] && [x] + [y] == [x, y];
  }

  lemma GateThenCommit(names: Names, ceiling: nat, t: Ticket)
    ensures Run(Open(names, ceiling), GateAndCommit(names, t)).names ==
            if QuotaOk(names, Asked(t, Seen(names, t)), Some(ceiling)) then Allocated(names, t).0 else names
  {
    TwoSteps(Open(names, ceiling), Gate(0, t, Seen(names, t)), Commit(0));
  }

  lemma ReadThenMove(names: Names, ceiling: nat, from: Key, scope: string, name: string)
    requires from in names && from != (scope, name)
    ensures Run(Open(names, ceiling), [MoveRead(0, from, scope, name), MoveCommit(0)]).names ==
            MoveNames(names, from, Ticket(scope, name, names[from], AppendCount))
  {
    TwoSteps(Open(names, ceiling), MoveRead(0, from, scope, name), MoveCommit(0));
  }

  /** A command run on its own is its gate and its allocation, or its read and its move,
      with nothing in between. A write of a new blob needs a new file id, one no row has. */
  lemma CommandIsItsSteps(s: Store, session: string, c: Command, limits: Limits)
    requires limits.ceiling.Some?
    requires c.WriteFile? && c.content.sha !in s.blobs ==> forall k :: k in s.names ==> s.names[k].file != c.newFile
    ensures Exec(s, session, c, limits).0.names ==
            Run(Open(s.names, limits.ceiling.value), StepsOf(s, session, c, limits)).names
  {
    match c
    case StoreFile(_, _, _, _) => StoreIsItsSteps(s, session, c, limits);
    case WriteFile(_, _, _, _, _) => WriteIsItsSteps(s, session, c, limits);
    case CopyFile(_, _, _) => CopyIsItsSteps(s, session, c, limits);
    case DeleteFile(_) =>
      var steps := StepsOf(s, session, c, limits);
      if steps != [] { TwoSteps(Open(s.names, limits.ceiling.value), steps[0], steps[0]); assert steps == [steps[0]]; }
  }

  lemma StoreIsItsSteps(s: Store, session: string, c: Command, limits: Limits)
    requires limits.ceiling.Some? && c.StoreFile?
    ensures ExecStore(s, session, c, limits).0.names ==
            Run(Open(s.names, limits.ceiling.value), StepsOf(s, session, c, limits)).names
  {
    var steps := StepsOf(s, session, c, limits);
    if steps != [] { GateThenCommit(s.names, limits.ceiling.value, steps[0].ticket); }
  }

  lemma WriteIsItsSteps(s: Store, session: string, c: Command, limits: Limits)
    requires limits.ceiling.Some? && c.WriteFile?
    requires c.content.sha !in s.blobs ==> forall k :: k in s.names ==> s.names[k].file != c.newFile
    ensures ExecWrite(s, session, c, limits).0.names ==
            Run(Open(s.names, limits.ceiling.value), StepsOf(s, session, c, limits)).names
  {
    var steps := StepsOf(s, session, c, limits);
    if steps != [] { GateThenCommit(s.names, limits.ceiling.value, steps[0].ticket); }
  }

  lemma CopyIsItsSteps(s: Store, session: string, c: Command, limits: Limits)
    requires limits.ceiling.Some? && c.CopyFile?
    ensures ExecCopy(s, session, c, limits).0.names ==
            Run(Open(s.names, limits.ceiling.value), StepsOf(s, session, c, limits)).names
  {
    var steps := StepsOf(s, session, c, limits);
    if steps != [] {
      if c.move {
        ReadThenMove(s.names, limits.ceiling.value, steps[0].from, steps[0].scope, steps[0].name);
      } else {
        GateThenCommit(s.names, limits.ceiling.value, steps[0].ticket);
      }
    }
  }

  // ------------------------------------------------------------ committing what is in flight

  function KeyOf(t: Ticket): Key {
    (t.scope, t.name)
  }

  /** Everything in flight passed a gate and is for a new name, no two alike. */
  ghost predicate AllNew(b: Books) {
    && (forall id :: id in b.inflight ==> b.inflight[id].Gated? && KeyOf(b.inflight[id].ticket) !in b.names)
    && (forall id, k :: id in b.inflight && k in b.inflight && id != k ==>
          KeyOf(b.inflight[id].ticket) != KeyOf(b.inflight[k].ticket))
  }

  function Commits(order: seq<nat>): seq<Step> {
    seq(|order|, i requires 0 <= i < |order| => Commit(order[i]))
  }

  lemma CommitNew(b: Books, id: nat)
    requires AllNew(b) && id in b.inflight
    ensures var after, t := Apply(b, Commit(id)), b.inflight[id].ticket;
            && AllNew(after) && after.inflight == b.inflight - {id} && after.names == b.names[KeyOf(t) := t.row]
            && Usage(after.names) + Sum(after.inflight, true) == Usage(b.names) + Sum(b.inflight, true)
  {
    var t := b.inflight[id].ticket;
    assert Allocated(b.names, t) == (b.names[KeyOf(t) := t.row], Saved(t.name, t.row.size));
    UsageUpdate(b.names, KeyOf(t), t.row);
    SumRemove(b.inflight, true, id);
  }

  function Ids(order: seq<nat>): set<nat> {
    set id | id in order
  }

  /** The commits of `done` have landed: what they weighed is now used. */
  ghost predicate Landed(b: Books, after: Books, done: set<nat>) {
    && AllNew(after) && after.inflight == b.inflight - done
    && Usage(after.names) + Sum(after.inflight, true) == Usage(b.names) + Sum(b.inflight, true)
  }

  lemma LandNext(b: Books, mid: Books, done: set<nat>, id: nat)
    requires Landed(b, mid, done) && id in b.inflight && id !in done
    ensures Landed(b, Apply(mid, Commit(id)), done + {id})
  {
    CommitNew(mid, id);
    assert b.inflight - (done + {id}) == b.inflight - done - {id};
  }

  lemma CommitsSnoc(b: Books, init: seq<nat>, last: nat)
    ensures Run(b, Commits(init + [last])) == Apply(Run(b, Commits(init)), Commit(last))
  {
    assert Commits(init + [last]) == Commits(init) + [Commit(last)];
    RunSnoc(b, Commits(init), Commit(last));
  }

  /** A list of commands in flight, none twice. */
  ghost predicate Lists(order: seq<nat>, inflight: map<nat, Flight>) {
    && (forall i :: 0 <= i < |order| ==> order[i] in inflight)
    && (forall i, j :: 0 <= i < j < |order| ==> order[i] != order[j])
  }

  lemma ListsInit(order: seq<nat>, inflight: map<nat, Flight>)
    requires order != [] && Lists(order, inflight)
    ensures var init, last := order[..|order| - 1], order[|order| - 1];
            && Lists(init, inflight) && last in inflight && last !in init && Ids(order) == Ids(init) + {last}
  {
    assert order == order[..|order| - 1] + [order[|order| - 1]];
  }

  lemma LandSnoc(b: Books, init: seq<nat>, last: nat)
    requires Landed(b, Run(b, Commits(init)), Ids(init)) && last in b.inflight && last !in Ids(init)
    ensures Landed(b, Run(b, Commits(init + [last])), Ids(init) + {last})
  {
    CommitsSnoc(b, init, last);
    LandNext(b, Run(b, Commits(init)), Ids(init), last);
  }

  lemma {:induction false} CommitMany(b: Books, order: seq<nat>)
    requires AllNew(b) && Lists(order, b.inflight)
    ensures Landed(b, Run(b, Commits(order)), Ids(order))
    decreases |order|
  {
    if order == [] {
      assert b.inflight - Ids(order) == b.inflight && Commits(order) == [];
    } else {
      var init, last := order[..|order| - 1], order[|order| - 1];
      ListsInit(order, b.inflight);
      CommitMany(b, init);
      LandSnoc(b, init, last);
      assert init + [last] == order;
    }
  }

  /** The converse of the bound. From any state in which everything in flight is for new,
      distinct names, committing it all, in any order, lands exactly on usage plus the sizes
      in flight; so it exceeds the ceiling exactly when they do not fit together. When every
      gate was asked in full, those sizes are what is outstanding. */
  lemma CommittingAllExceedsExactlyWhen(b: Books, order: seq<nat>)
    requires AllNew(b) && Lists(order, b.inflight) && forall id :: id in b.inflight ==> id in order
    ensures var after := Run(b, Commits(order));
            && Usage(after.names) == Usage(b.names) + Sum(b.inflight, true)
            && ((forall id :: id in b.inflight ==> b.inflight[id].add == b.inflight[id].ticket.row.size) ==>
                  (Usage(after.names) > b.ceiling <==> Usage(b.names) + Outstanding(b.inflight) > b.ceiling))
  {
    CommitMany(b, order);
    assert Run(b, Commits(order)).inflight == map[];
    if forall id :: id in b.inflight ==> b.inflight[id].add == b.inflight[id].ticket.row.size {
      AskedInFull(b.inflight);
    }
  }

  lemma {:induction false} AskedInFull(inflight: map<nat, Flight>)
    requires forall id :: id in inflight ==> inflight[id].Gated? && inflight[id].add == inflight[id].ticket.row.size
    ensures Sum(inflight, true) == Sum(inflight, false)
    decreases |inflight|
  {
    if inflight != map[] {
      var id :| id in inflight;
      SumRemove(inflight, true, id);
      SumRemove(inflight, false, id);
      AskedInFull(inflight - {id});
    }
  }

  // ------------------------------------------------------------ a burst of commands

  function SizeSum(tickets: seq<Ticket>): nat {
    if tickets == [] then 0 else SizeSum(tickets[..|tickets| - 1]) + tickets[|tickets| - 1].row.size
  }

  /** New names, no two alike, in any scopes. */
  ghost predicate NewNames(names: Names, tickets: seq<Ticket>) {
    && (forall i :: 0 <= i < |tickets| ==> KeyOf(tickets[i]) !in names)
    && (forall i, j :: 0 <= i < j < |tickets| ==> KeyOf(tickets[i]) != KeyOf(tickets[j]))
  }

  function Gates(tickets: seq<Ticket>): seq<Step> {
    seq(|tickets|, i requires 0 <= i < |tickets| => Gate(i, tickets[i], false))
  }

  function UpTo(n: nat): seq<nat> {
    seq(n, i requires 0 <= i < n => i)
  }

  /** The gates of the tickets have passed, and nothing else has happened. */
  ghost predicate Waiting(names: Names, tickets: seq<Ticket>, b: Books) {
    && b.names == names && Sum(b.inflight, true) == SizeSum(tickets)
    && (forall i :: i in b.inflight <==> 0 <= i < |tickets|)
    && (forall i :: 0 <= i < |tickets| ==> b.inflight[i] == Gated(tickets[i], tickets[i].row.size))
  }

  lemma PassNext(names: Names, init: seq<Ticket>, last: Ticket, b: Books)
    requires Waiting(names, init, b) && KeyOf(last) !in names && QuotaOk(names, last.row.size, Some(b.ceiling))
    ensures Waiting(names, init + [last], GateStep(b, |init|, last, false)) && GateStep(b, |init|, last, false).ceiling == b.ceiling
  {
    assert (init + [last])[..|init|] == init;
    assert |init| !in b.inflight;
    SumAdd(b.inflight, true, |init|, Gated(last, last.row.size));
  }

  lemma GatesSnoc(b: Books, init: seq<Ticket>, last: Ticket)
    ensures Run(b, Gates(init + [last])) == Apply(Run(b, Gates(init)), Gate(|init|, last, false))
  {
    assert Gates(init + [last]) == Gates(init) + [Gate(|init|, last, false)];
    RunSnoc(b, Gates(init), Gate(|init|, last, false));
  }

  lemma {:induction false} AllPass(names: Names, ceiling: nat, tickets: seq<Ticket>)
    requires NewNames(names, tickets)
    requires forall i :: 0 <= i < |tickets| ==> QuotaOk(names, tickets[i].row.size, Some(ceiling))
    ensures var b := Run(Open(names, ceiling), Gates(tickets)); Waiting(names, tickets, b) && b.ceiling == ceiling
  {
    if tickets == [] {
      assert Gates(tickets) == [];
    } else {
      var init, last := tickets[..|tickets| - 1], tickets[|tickets| - 1];
      AllPass(names, ceiling, init);
      GatesSnoc(Open(names, ceiling), init, last);
      assert KeyOf(tickets[|init|]) !in names;
      var b := Run(Open(names, ceiling), Gates(init));
      assert b.ceiling == ceiling && QuotaOk(names, tickets[|init|].row.size, Some(ceiling));
      PassNext(names, init, last, b);
      assert init + [last] == tickets;
    }
  }

  /** Any number of commands for new names, in any scopes and under any policy, whose gates
      all run before any allocates: each gate passes alone, and usage ends at the sum. */
  lemma BurstAddsUp(names: Names, ceiling: nat, tickets: seq<Ticket>)
    requires NewNames(names, tickets)
    requires forall i :: 0 <= i < |tickets| ==> QuotaOk(names, tickets[i].row.size, Some(ceiling))
    ensures Usage(Run(Open(names, ceiling), Gates(tickets) + Commits(UpTo(|tickets|))).names) == Usage(names) + SizeSum(tickets)
  {
    AllPass(names, ceiling, tickets);
    var b := Run(Open(names, ceiling), Gates(tickets));
    assert forall i :: 0 <= i < |tickets| ==> UpTo(|tickets|)[i] == i;
    assert forall id :: id in b.inflight <==> id in UpTo(|tickets|) by {
      forall id ensures id in b.inflight <==> id in UpTo(|tickets|) {
        if id in b.inflight { assert UpTo(|tickets|)[id] == id; }
      }
    }
    CommittingAllExceedsExactlyWhen(b, UpTo(|tickets|));
    RunConcat(Open(names, ceiling), Gates(tickets), Commits(UpTo(|tickets|)));
  }

  // ------------------------------------------------------------ three ways past the ceiling

  lemma RunFive(b: Books, x: Step, y: Step, z: Step, v: Step, w: Step)
    ensures Run(b, [x, y, z, v, w]) == Apply(Apply(Apply(Apply(Apply(b, x), y), z), v), w)
  {
    TwoSteps(b, x, y);
    RunSnoc(b, [x, y], z);
    RunSnoc(b, [x, y, z], v);
    RunSnoc(b, [x, y, z, v], w);
    assert [x, y] + [z] == [x, y, z] && [x, y, z] + [v] == [x, y, z, v] && [x, y, z, v] + [w] == [x, y, z, v, w];
  }

  /** Overlapping gates: two blobs as large as the ceiling both pass in an empty directory. */
  lemma GatesCanOverrun(scope: string, a: Row, b: Row, dedup: Dedup)
    requires a.size == b.size > 0
    ensures var tickets := [Ticket(scope, "a", a, dedup), Ticket(scope, "b", b, dedup)];
            Usage(Run(Open(map[], a.size), Gates(tickets) + Commits(UpTo(2))).names) > a.size
  {
    var tickets := [Ticket(scope, "a", a, dedup), Ticket(scope, "b", b, dedup)];
    assert "a"[0] != "b"[0];
    BurstAddsUp(map[], a.size, tickets);
    assert tickets[..1][..0] == [] && tickets[..|tickets| - 1] == tickets[..1] == [tickets[0]];
    assert SizeSum(tickets[..1]) == a.size;
  }

  /** An idempotent store is asked for nothing at the gate; when its name is deleted before
      it allocates, it adds the whole blob all the same, to a directory that had no room. */
  lemma IdempotentGateCanOverrun(scope: string, name: string, other: Key, row: Row, filler: Row)
    requires other != (scope, name) && 0 < row.size <= filler.size
    ensures var names := map[(scope, name) := row];
            var t, u := Ticket(scope, name, row, AppendCount), Ticket(other.0, other.1, filler, AppendCount);
            var steps := [Gate(0, t, true), Drop({(scope, name)}), Gate(1, u, false), Commit(1), Commit(0)];
            && Seen(names, t) && Usage(names) <= filler.size
            && Usage(Run(Open(names, filler.size), steps).names) == filler.size + row.size
  {
    var names, start := map[(scope, name) := row], Open(map[(scope, name) := row], filler.size);
    var t, u := Ticket(scope, name, row, AppendCount), Ticket(other.0, other.1, filler, AppendCount);
    RunFive(start, Gate(0, t, true), Drop({(scope, name)}), Gate(1, u, false), Commit(1), Commit(0));
    var b1 := Apply(start, Gate(0, t, true));
    assert b1.inflight == map[0 := Gated(t, 0)];
    EmptyAgain(names, (scope, name), row);
    var b3 := Apply(Apply(b1, Drop({(scope, name)})), Gate(1, u, false));
    assert b3.names == map[] && b3.inflight == map[0 := Gated(t, 0), 1 := Gated(u, filler.size)];
    UsageUpdate(map[], other, filler);
    UsageUpdate(map[other := filler], (scope, name), row);
  }

  lemma EmptyAgain(names: Names, key: Key, row: Row)
    requires names == map[key := row]
    ensures names - {key} == map[] && Usage(names) == row.size
  {
    UsageUpdate(map[], key, row);
    assert map[][key := row] == names;
  }

  /** A move reads its source, which is then deleted; a store that fills the directory
      passes its gate alone; and the move, which passes none, adds its row all the same. No
      two gates overlapped, and none was asked for less than its commit added. */
  lemma StaleMoveCanOverrun(scope: string, src: string, dst: string, other: Key, row: Row, filler: Row)
    requires src != dst && other != (scope, dst) && other != (scope, src) && 0 < row.size <= filler.size
    ensures var names := map[(scope, src) := row];
            var u := Ticket(other.0, other.1, filler, AppendCount);
            var read := MoveRead(0, (scope, src), scope, dst);
            var steps := [read, Drop({(scope, src)}), Gate(1, u, false), Commit(1), MoveCommit(0)];
            var after := Run(Open(names, filler.size), steps);
            && Usage(names) <= filler.size && after.overlap == 0
            && Usage(after.names) == filler.size + row.size && after.beyond == row.size
  {
    var names, start := map[(scope, src) := row], Open(map[(scope, src) := row], filler.size);
    var t, u := Ticket(scope, dst, row, AppendCount), Ticket(other.0, other.1, filler, AppendCount);
    RunFive(start, MoveRead(0, (scope, src), scope, dst), Drop({(scope, src)}), Gate(1, u, false), Commit(1), MoveCommit(0));
    var b1 := Apply(start, MoveRead(0, (scope, src), scope, dst));
    assert b1.inflight == map[0 := Moving((scope, src), t)];
    EmptyAgain(names, (scope, src), row);
    var b2 := Apply(b1, Drop({(scope, src)}));
    SumAdd(map[], false, 0, Moving((scope, src), t));
    assert map[][0 := Moving((scope, src), t)] == b2.inflight;
    assert Outstanding(b2.inflight) == 0;
    var b3 := Apply(b2, Gate(1, u, false));
    assert b3.names == map[] && b3.overlap == 0 && b3.inflight == map[0 := Moving((scope, src), t), 1 := Gated(u, filler.size)];
    var b4 := Apply(b3, Commit(1));
    assert b4.names == map[other := filler] && b4.overlap == 0 && b4.beyond == 0 && b4.inflight == map[0 := Moving((scope, src), t)];
    UsageUpdate(map[], other, filler);
    UsageUpdate(map[other := filler], (scope, dst), row);
    assert b4.names[(scope, dst) := row] - {(scope, src)} == b4.names[(scope, dst) := row];
  }

  // ------------------------------------------------------------ moves and last names

  /** When the move's transaction keeps a blob named: unless it finds no free name, the blob
      must have a name other than the move's source, or be the one moved to such a name. In
      the source, another blob may have taken the place of the one that was read. */
  lemma MoveKeepsNamedExactlyWhen(names: Names, from: Key, t: Ticket, file: FileId)
    requires Named(names, file) && Allocated(names, t).1.Saved? && t.dedup != Overwrite
    ensures var saved := (t.scope, Allocated(names, t).1.name);
            Named(MoveNames(names, from, t), file) <==>
            (file == t.row.file && saved != from) || exists k :: k in names && k != from && names[k].file == file
  {
    AllocateBinds(names, t.scope, t.name, t.row, t.dedup);
    var (after, outcome) := Allocated(names, t);
    var saved, moved := (t.scope, outcome.name), MoveNames(names, from, t);
    if file == t.row.file && saved != from { assert saved in moved && moved[saved].file == file; }
    if k :| k in names && k != from && names[k].file == file {
      SavedElsewhere(names, after, saved, k, t, outcome);
      assert k in moved && moved[k].file == file;
    }
    if k :| k in moved && moved[k].file == file {
      if k != saved {
        assert k in after - {saved};
        assert k in names && names[k] == (names - {saved})[k] == (after - {saved})[k];
      }
    }
  }

  lemma SavedElsewhere(names: Names, after: Names, saved: Key, k: Key, t: Ticket, outcome: Allocation)
    requires (after, outcome) == Allocated(names, t) && outcome.Saved? && saved == (t.scope, outcome.name)
    requires k in names && t.dedup != Overwrite
    ensures k in after && after[k] == names[k]
  {
    AllocateBinds(names, t.scope, t.name, t.row, t.dedup);
    if k != saved { assert k in names - {saved} && (after - {saved})[k] == (names - {saved})[k]; }
  }

  /** A move reads its source; a store overwrites the source with another blob and is told
      its name is saved; the move then deletes that blob's only name. */
  lemma StaleMoveTakesALastName(scope: string, src: string, dst: string, row: Row, stored: Row, ceiling: nat)
    requires src != dst && row.file != stored.file && row.size + stored.size <= ceiling
    ensures var names := map[(scope, src) := row];
            var read, gate := MoveRead(0, (scope, src), scope, dst), Gate(1, Ticket(scope, src, stored, Overwrite), false);
            var steps := [read, gate, Commit(1), MoveCommit(0)];
            Run(Open(names, ceiling), steps).names == map[(scope, dst) := row]
  {
    var names, start := map[(scope, src) := row], Open(map[(scope, src) := row], ceiling);
    var t, u := Ticket(scope, dst, row, AppendCount), Ticket(scope, src, stored, Overwrite);
    var read, gate := MoveRead(0, (scope, src), scope, dst), Gate(1, u, false);
    TwoSteps(start, read, gate);
    RunSnoc(start, [read, gate], Commit(1));
    RunSnoc(start, [read, gate, Commit(1)], MoveCommit(0));
    assert [read, gate] + [Commit(1)] == [read, gate, Commit(1)];
    assert [read, gate, Commit(1)] + [MoveCommit(0)] == [read, gate, Commit(1), MoveCommit(0)];
    EmptyAgain(names, (scope, src), row);
    var b2 := Apply(Apply(start, read), gate);
    assert b2.inflight == map[0 := Moving((scope, src), t), 1 := Gated(u, stored.size)];
    var b3 := Apply(b2, Commit(1));
    assert b3.names == map[(scope, src) := stored] && b3.inflight == map[0 := Moving((scope, src), t)];
    assert MoveNames(b3.names, (scope, src), t) == map[(scope, dst) := row];
  }
}
