/** Reclaiming content-addressed blobs (bp_router/tasks.py, _gc_files_once), while users
    upload the same bytes (bp_router/api/files.py). An upload stores its bytes first and
    inserts its row later; a sweep re-checks a hash first and deletes its bytes later; other
    steps run in between. */
module BlobGc {
  type FileId = nat
  type UploadId = nat
  type JobId = nat
  type Sha = string

  /** A row of `files`: per user, so several rows can share one stored object. */
  datatype FileRow = FileRow(sha: Sha, user: string, expired: bool, named: bool)

  /** The rows, the uploads whose bytes were stored and whose row is not there yet, the
      stored objects, and the hashes of uploads that were given up in between. */
  datatype World = World(files: map<FileId, FileRow>, uploads: map<UploadId, Sha>, storage: set<Sha>, orphans: set<Sha>)

  function Referenced(w: World): set<Sha> {
    set id | id in w.files :: w.files[id].sha
  }

  function Uploading(w: World): set<Sha> {
    set u | u in w.uploads :: w.uploads[u]
  }

  /** Every live row has its bytes. */
  predicate Safe(w: World) {
    Referenced(w) <= w.storage
  }

  /** Stored objects are those referenced or on their way to be. */
  predicate Coincide(w: World) {
    w.storage == Referenced(w) + Uploading(w)
  }

  predicate Live(w: World, sha: Sha) {
    exists id :: id in w.files && w.files[id].sha == sha
  }

  lemma LiveIsReferenced(w: World, sha: Sha)
    ensures Live(w, sha) <==> sha in Referenced(w)
  {
  }

  // ------------------------------------------------------------ uploads

  function Put(w: World, u: UploadId, sha: Sha): World {
    w.(uploads := w.uploads[u := sha], storage := w.storage + {sha})
  }

  /** insert_file gives a user's second upload of the same bytes the row of the first. */
  predicate HasRow(w: World, row: FileRow) {
    exists id :: id in w.files && w.files[id].sha == row.sha && w.files[id].user == row.user
  }

  function Insert(w: World, u: UploadId, id: FileId, row: FileRow): World {
    w.(files := if HasRow(w, row) then w.files else w.files[id := row], uploads := w.uploads - {u})
  }

  /** The upload is refused after its bytes were stored, and nothing notes them. */
  function Abandon(w: World, u: UploadId): World
    requires u in w.uploads
  {
    w.(uploads := w.uploads - {u}, orphans := w.orphans + {w.uploads[u]})
  }

  function DeleteBytes(w: World, sha: Sha): World {
    w.(storage := w.storage - {sha})
  }

  // ------------------------------------------------------------ any number of sweeps

  /** A hash whose re-check found no reference, and the rows of it inserted since. */
  datatype Cleared = Cleared(sha: Sha, arrived: set<FileId>)

  /** The world, the hashes still to be re-checked, those about to be deleted, the uploads
      whose bytes were deleted and not stored again since, and the ids ever generated. */
  datatype Sweeps = Sweeps(world: World, pending: map<JobId, Sha>, cleared: map<JobId, Cleared>,
                           robbed: set<UploadId>, used: set<FileId>)

  datatype Step =
    | StorePut(u: UploadId, sha: Sha)
    | RowInsert(u: UploadId, id: FileId, row: FileRow)
    | GiveUp(u: UploadId)
    | Drop(id: FileId, job: JobId)       // delete a row; note its hash if no other row has it
    | Recheck(job: JobId)
    | Delete(job: JobId)

  function UploadsOf(w: World, sha: Sha): set<UploadId> {
    set u | u in w.uploads && w.uploads[u] == sha
  }

  function Noticed(cleared: map<JobId, Cleared>, id: FileId, sha: Sha): map<JobId, Cleared> {
    map j | j in cleared ::
      if cleared[j].sha == sha then cleared[j].(arrived := cleared[j].arrived + {id}) else cleared[j]
  }

  predicate Inserts(s: Sweeps, step: Step) {
    step.RowInsert? && step.u in s.world.uploads && s.world.uploads[step.u] == step.row.sha
    && step.id !in s.used && !HasRow(s.world, step.row)
  }

  function InsertStep(s: Sweeps, u: UploadId, id: FileId, row: FileRow): Sweeps {
    if u !in s.world.uploads || s.world.uploads[u] != row.sha || id in s.used then s
    else if HasRow(s.world, row) then s.(world := Insert(s.world, u, id, row), robbed := s.robbed - {u})
    else
      Sweeps(Insert(s.world, u, id, row), s.pending, Noticed(s.cleared, id, row.sha), s.robbed - {u}, s.used + {id})
  }

  function Apply(s: Sweeps, step: Step): Sweeps {
    match step
    case StorePut(u, sha) =>
      if u in s.world.uploads then s
      else s.(world := Put(s.world, u, sha), robbed := s.robbed - UploadsOf(s.world, sha))
    case RowInsert(u, id, row) => InsertStep(s, u, id, row)
    case GiveUp(u) =>
      if u !in s.world.uploads then s
      else s.(world := Abandon(s.world, u), robbed := s.robbed - {u})
    case Drop(id, job) =>
      if id !in s.world.files || job in s.pending || job in s.cleared then s
      else
        var w := s.world.(files := s.world.files - {id});
        var sha := s.world.files[id].sha;
        s.(world := w, pending := if Live(w, sha) then s.pending else s.pending[job := sha])
    case Recheck(job) =>
      if job !in s.pending then s
      else
        var sha := s.pending[job];
        s.(pending := s.pending - {job},
           cleared := if Live(s.world, sha) then s.cleared else s.cleared[job := Cleared(sha, {})])
    case Delete(job) =>
      if job !in s.cleared then s
      else
        var sha := s.cleared[job].sha;
        s.(world := DeleteBytes(s.world, sha), cleared := s.cleared - {job},
           robbed := s.robbed + UploadsOf(s.world, sha))
  }

  function Run(s: Sweeps, steps: seq<Step>): Sweeps
    decreases |steps|
  {
    if steps == [] then s else Apply(Run(s, steps[..|steps| - 1]), steps[|steps| - 1])
  }

  lemma RunSnoc(s: Sweeps, steps: seq<Step>, step: Step)
    ensures Run(s, steps + [step]) == Apply(Run(s, steps), step)
  {
    assert (steps + [step])[..|steps + [step]| - 1] == steps;
  }

  /** The hashes some sweep has in hand. */
  function ShasOf(s: Sweeps): set<Sha> {
    (set j | j in s.pending :: s.pending[j]) + (set j | j in s.cleared :: s.cleared[j].sha)
  }

  function Accounted(s: Sweeps): set<Sha> {
    Referenced(s.world) + Uploading(s.world) + ShasOf(s) + s.world.orphans
  }

  /** Nothing is kept but what is referenced, on its way, in hand, or given up. */
  predicate NoLeak(s: Sweeps) {
    s.world.storage <= Accounted(s)
  }

  /** Ids never repeat, and a hash in hand is either still to be re-checked or cleared. */
  predicate Tidy(s: Sweeps) {
    s.world.files.Keys <= s.used && s.pending.Keys !! s.cleared.Keys
  }

  /** The rows of a cleared hash are exactly those inserted since. */
  predicate GapKnown(s: Sweeps, c: Cleared) {
    && c.arrived <= s.used
    && forall id :: id in s.world.files ==> (s.world.files[id].sha == c.sha <==> id in c.arrived)
  }

  /** An upload on its way lacks its bytes exactly when it was robbed of them. */
  predicate RobbedKnown(s: Sweeps) {
    && s.robbed <= s.world.uploads.Keys
    && forall u :: u in s.world.uploads ==> (s.world.uploads[u] !in s.world.storage <==> u in s.robbed)
  }

  predicate GapsKnown(s: Sweeps) {
    Tidy(s) && RobbedKnown(s) && forall j :: j in s.cleared ==> GapKnown(s, s.cleared[j])
  }

  lemma RobbedStep(s: Sweeps, step: Step)
    requires RobbedKnown(s)
    ensures RobbedKnown(Apply(s, step))
  {
  }

  lemma GapsStep(s: Sweeps, step: Step)
    requires GapsKnown(s)
    ensures GapsKnown(Apply(s, step))
  {
    var s' := Apply(s, step);
    RobbedStep(s, step);
    forall j | j in s'.cleared ensures GapKnown(s', s'.cleared[j]) {
      if j in s.cleared { assert GapKnown(s, s.cleared[j]); }
    }
  }

  lemma LeakStep(s: Sweeps, step: Step)
    requires Tidy(s) && NoLeak(s)
    ensures NoLeak(Apply(s, step))
  {
    var s' := Apply(s, step);
    forall sha | sha in s'.world.storage ensures sha in Accounted(s') {
      if sha !in s.world.storage {
        assert s'.world.uploads[step.u] == sha;
      } else if sha in Referenced(s.world) {
        var id :| id in s.world.files && s.world.files[id].sha == sha;
        StillHeld(s, step, id);
      } else if sha in Uploading(s.world) {
        var u :| u in s.world.uploads && s.world.uploads[u] == sha;
        StillUploading(s, step, u);
      } else if sha in ShasOf(s) {
        StillInHand(s, step, sha);
      }
    }
  }

  lemma StillHeld(s: Sweeps, step: Step, id: FileId)
    requires Tidy(s) && id in s.world.files
    ensures s.world.files[id].sha in Referenced(Apply(s, step).world) + ShasOf(Apply(s, step))
  {
    var s', sha := Apply(s, step), s.world.files[id].sha;
    if id in s'.world.files {
      assert s'.world.files[id].sha == sha;
    } else {
      LiveIsReferenced(s'.world, sha);
      if !Live(s'.world, sha) { assert s'.pending[step.job] == sha; }
    }
  }

  lemma StillUploading(s: Sweeps, step: Step, u: UploadId)
    requires u in s.world.uploads
    ensures s.world.uploads[u] in Accounted(Apply(s, step))
  {
    var s', sha := Apply(s, step), s.world.uploads[u];
    if u in s'.world.uploads {
      assert s'.world.uploads[u] == sha;
    } else if step.RowInsert? {
      var id := if HasRow(s.world, step.row)
                then (var k :| k in s.world.files && s.world.files[k].sha == step.row.sha; k) else step.id;
      assert s'.world.files[id].sha == sha;
    }
  }

  lemma StillInHand(s: Sweeps, step: Step, sha: Sha)
    requires Tidy(s) && sha in ShasOf(s) && sha in Apply(s, step).world.storage
    ensures sha in Referenced(Apply(s, step).world) + ShasOf(Apply(s, step))
  {
    var s' := Apply(s, step);
    if j :| j in s.pending && s.pending[j] == sha {
      if step == Recheck(j) {
        LiveIsReferenced(s.world, sha);
        if !Live(s.world, sha) { assert s'.cleared[j].sha == sha; }
      } else {
        assert j in s'.pending && s'.pending[j] == sha;
      }
    } else {
      var j :| j in s.cleared && s.cleared[j].sha == sha;
      assert j in s'.cleared && s'.cleared[j].sha == sha;
    }
  }

  /** A state in which no sweep has anything in hand; uploads may be on their way. */
  predicate Idle(s: Sweeps) {
    s.pending == map[] && s.cleared == map[] && s.robbed == {} && s.world.files.Keys <= s.used
  }

  lemma {:induction false} SweepsKeepTrack(s: Sweeps, steps: seq<Step>)
    requires Idle(s) && Coincide(s.world)
    ensures GapsKnown(Run(s, steps)) && NoLeak(Run(s, steps))
    decreases |steps|
  {
    if steps == [] {
      forall u | u in s.world.uploads ensures s.world.uploads[u] in Uploading(s.world) {}
    } else {
      SweepsKeepTrack(s, steps[..|steps| - 1]);
      GapsStep(Run(s, steps[..|steps| - 1]), steps[|steps| - 1]);
      LeakStep(Run(s, steps[..|steps| - 1]), steps[|steps| - 1]);
    }
  }

  // ------------------------------------------------------------ when bytes are lost

  /** The two ways a live row comes to lack its bytes: a hash is deleted while a row of it,
      inserted after its re-check, is present; or an upload inserts its row after the bytes
      it stored were deleted and nobody stored them again. */
  predicate Loses(s: Sweeps, step: Step) {
    || (step.Delete? && step.job in s.cleared && exists id :: id in s.cleared[step.job].arrived && id in s.world.files)
    || (Inserts(s, step) && step.u in s.robbed)
  }

  lemma DeleteSafeExactlyWhen(s: Sweeps, job: JobId)
    requires GapsKnown(s) && Safe(s.world) && job in s.cleared
    ensures Safe(Apply(s, Delete(job)).world) <==> !Loses(s, Delete(job))
  {
    var s', c := Apply(s, Delete(job)), s.cleared[job];
    assert GapKnown(s, c);
    if id :| id in c.arrived && id in s.world.files {
      assert s'.world.files[id].sha == c.sha && c.sha in Referenced(s'.world);
    } else {
      forall sha | sha in Referenced(s'.world) ensures sha in s'.world.storage {
        var id :| id in s.world.files && s.world.files[id].sha == sha;
        assert sha in Referenced(s.world);
      }
    }
  }

  lemma InsertSafeExactlyWhen(s: Sweeps, step: Step)
    requires GapsKnown(s) && Safe(s.world) && Inserts(s, step)
    ensures Safe(Apply(s, step).world) <==> !Loses(s, step)
  {
    var s' := Apply(s, step);
    assert s'.world.files[step.id].sha == step.row.sha && step.row.sha in Referenced(s'.world);
    forall sha | sha in Referenced(s'.world) && sha != step.row.sha ensures sha in s'.world.storage {
      var id :| id in s'.world.files && s'.world.files[id].sha == sha;
      assert id in s.world.files && s.world.files[id].sha in Referenced(s.world);
    }
  }

  /** One step, from a safe state: safe exactly when it loses nothing. */
  lemma StepSafeExactlyWhen(s: Sweeps, step: Step)
    requires GapsKnown(s) && Safe(s.world)
    ensures Safe(Apply(s, step).world) <==> !Loses(s, step)
  {
    if step.Delete? && step.job in s.cleared {
      DeleteSafeExactlyWhen(s, step.job);
    } else if Inserts(s, step) {
      InsertSafeExactlyWhen(s, step);
    } else {
      var s' := Apply(s, step);
      forall sha | sha in Referenced(s'.world) ensures sha in s'.world.storage {
        var id :| id in s'.world.files && s'.world.files[id].sha == sha;
        assert id in s.world.files && s.world.files[id].sha in Referenced(s.world);
      }
    }
  }

  ghost predicate EverySafe(s: Sweeps, steps: seq<Step>) {
    forall n :: 0 <= n <= |steps| ==> Safe(Run(s, steps[..n]).world)
  }

  ghost predicate LosesNothing(s: Sweeps, steps: seq<Step>) {
    forall n :: 0 <= n < |steps| ==> !Loses(Run(s, steps[..n]), steps[n])
  }

  /** The main result: however the halves of uploads, row deletions, re-checks and byte
      deletions of any number of sweeps interleave, no live row ever lacks its bytes if and
      only if no hash is deleted while a row inserted since its re-check is present, and no
      upload inserts a row whose stored bytes were deleted and not stored again. */
  lemma {:induction false} SafeExactlyWhenNothingIsLost(s: Sweeps, steps: seq<Step>)
    requires Idle(s) && Coincide(s.world)
    ensures EverySafe(s, steps) <==> LosesNothing(s, steps)
    decreases |steps|
  {
    if steps == [] {
      assert steps[..0] == [];
    } else {
      var init, last := steps[..|steps| - 1], steps[|steps| - 1];
      SafeExactlyWhenNothingIsLost(s, init);
      assert forall n :: 0 <= n <= |init| ==> init[..n] == steps[..n];
      assert steps[..|steps|] == steps && init[..|init|] == init;
      SweepsKeepTrack(s, init);
      assert EverySafe(s, steps) <==> EverySafe(s, init) && Safe(Run(s, steps).world) by { PrefixesSafe(s, steps); }
      assert LosesNothing(s, steps) <==> LosesNothing(s, init) && !Loses(Run(s, init), last) by { PrefixesLose(s, steps); }
      if EverySafe(s, init) {
        assert Safe(Run(s, init[..|init|]).world);
        StepSafeExactlyWhen(Run(s, init), last);
      }
    }
  }

  lemma PrefixesSafe(s: Sweeps, steps: seq<Step>)
    requires steps != []
    ensures EverySafe(s, steps) <==> EverySafe(s, steps[..|steps| - 1]) && Safe(Run(s, steps).world)
  {
    var init := steps[..|steps| - 1];
    assert forall n :: 0 <= n <= |init| ==> init[..n] == steps[..n];
    assert steps[..|steps|] == steps;
    if EverySafe(s, steps) {
      forall n | 0 <= n <= |init| ensures Safe(Run(s, init[..n]).world) { assert Safe(Run(s, steps[..n]).world); }
    }
    if EverySafe(s, init) && Safe(Run(s, steps).world) {
      forall n | 0 <= n <= |steps| ensures Safe(Run(s, steps[..n]).world) {
        if n < |steps| { assert Safe(Run(s, init[..n]).world); }
      }
    }
  }

  lemma PrefixesLose(s: Sweeps, steps: seq<Step>)
    requires steps != []
    ensures LosesNothing(s, steps) <==>
            LosesNothing(s, steps[..|steps| - 1]) && !Loses(Run(s, steps[..|steps| - 1]), steps[|steps| - 1])
  {
    var init := steps[..|steps| - 1];
    assert forall n :: 0 <= n <= |init| ==> init[..n] == steps[..n];
    if LosesNothing(s, steps) {
      forall n | 0 <= n < |init| ensures !Loses(Run(s, init[..n]), init[n]) {
        assert !Loses(Run(s, steps[..n]), steps[n]);
      }
      assert !Loses(Run(s, steps[..|init|]), steps[|init|]);
    }
    if LosesNothing(s, init) && !Loses(Run(s, init), steps[|init|]) {
      forall n | 0 <= n < |steps| ensures !Loses(Run(s, steps[..n]), steps[n]) {
        if n < |init| { assert !Loses(Run(s, init[..n]), init[n]); }
      }
    }
  }

  /** An upload of a hash in hand gets in a sweep's way: its row comes between the re-check
      and the deletion, or its bytes are stored before the deletion and its row is not there. */
  predicate Disturbs(s: Sweeps, step: Step) {
    || (Inserts(s, step) && exists j :: j in s.cleared && s.cleared[j].sha == step.row.sha)
    || (step.Delete? && step.job in s.cleared && UploadsOf(s.world, s.cleared[step.job].sha) != {})
  }

  ghost predicate GapsUndisturbed(s: Sweeps, steps: seq<Step>) {
    forall n :: 0 <= n < |steps| ==> !Disturbs(Run(s, steps[..n]), steps[n])
  }

  predicate NothingArrived(s: Sweeps) {
    s.robbed == {} && forall j :: j in s.cleared ==> s.cleared[j].arrived == {}
  }

  lemma {:induction false} UndisturbedGapsStayEmpty(s: Sweeps, steps: seq<Step>)
    requires Idle(s) && GapsUndisturbed(s, steps)
    ensures forall n :: 0 <= n <= |steps| ==> NothingArrived(Run(s, steps[..n]))
    decreases |steps|
  {
    if steps != [] {
      var init, last := steps[..|steps| - 1], steps[|steps| - 1];
      assert forall n :: 0 <= n <= |init| ==> init[..n] == steps[..n];
      forall n | 0 <= n < |init| ensures !Disturbs(Run(s, init[..n]), init[n]) {
        assert !Disturbs(Run(s, steps[..n]), steps[n]);
      }
      UndisturbedGapsStayEmpty(s, init);
      assert NothingArrived(Run(s, init[..|init|])) && init[..|init|] == init && steps[..|init|] == init;
      assert !Disturbs(Run(s, steps[..|init|]), last);
      NothingArrivesStep(Run(s, init), last);
      forall n | 0 <= n <= |steps| ensures NothingArrived(Run(s, steps[..n])) {
        if n < |steps| { assert NothingArrived(Run(s, init[..n])); } else { assert steps[..n] == steps; }
      }
    }
  }

  lemma NothingArrivesStep(s: Sweeps, step: Step)
    requires NothingArrived(s) && !Disturbs(s, step)
    ensures NothingArrived(Apply(s, step))
  {
  }

  /** So if every upload of a hash is complete before its re-check or begins after its
      deletion, no live row ever lacks its bytes; and whenever no sweep has anything in
      hand and no upload was given up, storage holds exactly what is referenced or on its
      way. */
  lemma SweepsNeverLoseBytes(s: Sweeps, steps: seq<Step>)
    requires Idle(s) && Coincide(s.world) && GapsUndisturbed(s, steps)
    ensures EverySafe(s, steps)
    ensures ShasOf(Run(s, steps)) == {} == Run(s, steps).world.orphans ==> Coincide(Run(s, steps).world)
  {
    UndisturbedGapsStayEmpty(s, steps);
    forall n | 0 <= n < |steps| ensures !Loses(Run(s, steps[..n]), steps[n]) {
      assert NothingArrived(Run(s, steps[..n]));
    }
    SafeExactlyWhenNothingIsLost(s, steps);
    assert Safe(Run(s, steps[..|steps|]).world) && NothingArrived(Run(s, steps[..|steps|])) && steps[..|steps|] == steps;
    SweepsKeepTrack(s, steps);
  }

  /** One user's expired row, its bytes, and nothing else going on. */
  function OneExpired(mine: FileRow): Sweeps {
    Sweeps(World(map[0 := mine], map[], {mine.sha}, {}), map[], map[], {}, {0})
  }

  lemma OneExpiredIsIdle(mine: FileRow)
    ensures Idle(OneExpired(mine)) && Coincide(OneExpired(mine).world)
  {
    assert OneExpired(mine).world.files[0].sha == mine.sha;
  }

  lemma RunFive(s: Sweeps, a: Step, b: Step, c: Step, d: Step, e: Step)
    ensures Run(s, [a, b, c, d, e]) == Apply(Apply(Apply(Apply(Apply(s, a), b), c), d), e)
  {
    RunSnoc(s, [], a);
    RunSnoc(s, [a], b);
    RunSnoc(s, [a, b], c);
    RunSnoc(s, [a, b, c], d);
    RunSnoc(s, [a, b, c, d], e);
    assert [] + [a] == [a] && [a] + [b] == [a, b] && [a, b] + [c] == [a, b, c];
    assert [a, b, c] + [d] == [a, b, c, d] && [a, b, c, d] + [e] == [a, b, c, d, e];
  }

  lemma DropAndRecheck(mine: FileRow)
    ensures Apply(Apply(OneExpired(mine), Drop(0, 0)), Recheck(0)) ==
            Sweeps(World(map[], map[], {mine.sha}, {}), map[], map[0 := Cleared(mine.sha, {})], {}, {0})
  {
    var s := OneExpired(mine);
    var s1 := Apply(s, Drop(0, 0));
    assert s.world.files - {0} == map[] && !Live(s1.world, mine.sha);
    assert s1 == Sweeps(World(map[], map[], {mine.sha}, {}), map[0 := mine.sha], map[], {}, {0});
    assert s1.pending - {0} == map[];
  }

  /** A whole upload of the same bytes between re-check and deletion ends with a row and
      no bytes. */
  lemma UploadInTheGapLosesBytes(mine: FileRow, theirs: FileRow)
    requires mine.sha == theirs.sha
    ensures Idle(OneExpired(mine)) && Coincide(OneExpired(mine).world)
    ensures var after := Run(OneExpired(mine), [Drop(0, 0), Recheck(0), StorePut(7, mine.sha), RowInsert(7, 1, theirs), Delete(0)]).world;
            after.files == map[1 := theirs] && after.storage == {}
  {
    var s := OneExpired(mine);
    OneExpiredIsIdle(mine);
    RunFive(s, Drop(0, 0), Recheck(0), StorePut(7, mine.sha), RowInsert(7, 1, theirs), Delete(0));
    DropAndRecheck(mine);
    var s3 := Apply(Apply(Apply(s, Drop(0, 0)), Recheck(0)), StorePut(7, mine.sha));
    assert s3.world == World(map[], map[7 := mine.sha], {mine.sha}, {});
    var s4 := Apply(s3, RowInsert(7, 1, theirs));
    assert s4.world.files == map[1 := theirs] && s4.cleared[0].sha == mine.sha;
  }

  /** Nothing has to come between re-check and deletion: an upload stores its bytes before
      the re-check and inserts its row after the deletion. */
  lemma UploadAroundTheGapLosesBytes(mine: FileRow, theirs: FileRow)
    requires mine.sha == theirs.sha
    ensures Idle(OneExpired(mine)) && Coincide(OneExpired(mine).world)
    ensures var after := Run(OneExpired(mine), [Drop(0, 0), StorePut(7, mine.sha), Recheck(0), Delete(0), RowInsert(7, 1, theirs)]).world;
            after.files == map[1 := theirs] && after.storage == {}
  {
    var s := OneExpired(mine);
    OneExpiredIsIdle(mine);
    RunFive(s, Drop(0, 0), StorePut(7, mine.sha), Recheck(0), Delete(0), RowInsert(7, 1, theirs));
    var s1 := Apply(s, Drop(0, 0));
    assert s.world.files - {0} == map[] && !Live(s1.world, mine.sha);
    var s2 := Apply(s1, StorePut(7, mine.sha));
    assert s2.world == World(map[], map[7 := mine.sha], {mine.sha}, {}) && s2.pending == map[0 := mine.sha];
    var s3 := Apply(s2, Recheck(0));
    assert s3.cleared == map[0 := Cleared(mine.sha, {})] && s3.world == s2.world;
    var s4 := Apply(s3, Delete(0));
    assert s4.world == World(map[], map[7 := mine.sha], {}, {}) && s4.used == {0};
  }

  // ------------------------------------------------------------ one sweep

  /** Storage is what is referenced or on its way, but for the hashes in hand, those given
      up, and those `exposed`. */
  predicate Balanced(w: World, inHand: set<Sha>, exposed: set<Sha>) {
    && w.storage <= Referenced(w) + Uploading(w) + inHand + w.orphans
    && (Referenced(w) + Uploading(w)) - w.storage <= exposed
  }

  lemma PutKeepsBalance(w: World, u: UploadId, sha: Sha, inHand: set<Sha>, exposed: set<Sha>)
    requires Balanced(w, inHand, exposed) && u !in w.uploads
    ensures Balanced(Put(w, u, sha), inHand, exposed)
  {
    var w1 := Put(w, u, sha);
    assert w1.uploads[u] == sha;
    forall x | x in Uploading(w) ensures x in Uploading(w1) {
      var k :| k in w.uploads && w.uploads[k] == x;
      assert w1.uploads[k] == x;
    }
    assert Referenced(w1) == Referenced(w);
  }

  /** Inserting moves one hash from on its way to referenced. */
  lemma InsertMoves(w: World, u: UploadId, id: FileId, row: FileRow)
    requires u in w.uploads && w.uploads[u] == row.sha && id !in w.files
    ensures var w1 := Insert(w, u, id, row); Referenced(w1) + Uploading(w1) == Referenced(w) + Uploading(w)
  {
    var w1 := Insert(w, u, id, row);
    forall x ensures x in Referenced(w1) + Uploading(w1) <==> x in Referenced(w) + Uploading(w) {
      if x in Referenced(w) {
        var k :| k in w.files && w.files[k].sha == x;
        assert w1.files[k].sha == x;
      }
      if x in Uploading(w) {
        var k :| k in w.uploads && w.uploads[k] == x;
        if k != u {
          assert w1.uploads[k] == x;
        } else {
          var i := if HasRow(w, row) then (var k :| k in w.files && w.files[k].sha == row.sha; k) else id;
          assert w1.files[i].sha == x;
        }
      }
    }
  }

  lemma AbandonKeepsBalance(w: World, u: UploadId, inHand: set<Sha>, exposed: set<Sha>)
    requires Balanced(w, inHand, exposed) && u in w.uploads
    ensures Balanced(Abandon(w, u), inHand, exposed)
  {
    var w1 := Abandon(w, u);
    forall x | x in Uploading(w) ensures x in Uploading(w1) + w1.orphans {
      var k :| k in w.uploads && w.uploads[k] == x;
      if k != u { assert w1.uploads[k] == x; }
    }
  }

  lemma DropKeepsBalance(w: World, id: FileId, inHand: set<Sha>, exposed: set<Sha>)
    requires id in w.files && Balanced(w, inHand, exposed)
    ensures var w1, sha := w.(files := w.files - {id}), w.files[id].sha;
            Balanced(w1, if Live(w1, sha) then inHand else inHand + {sha}, exposed)
  {
    var w1, sha := w.(files := w.files - {id}), w.files[id].sha;
    LiveIsReferenced(w1, sha);
    forall x | x in Referenced(w) && x != sha ensures x in Referenced(w1) {
      var k :| k in w.files && w.files[k].sha == x;
      assert k in w1.files;
    }
    forall x | x in Referenced(w1) ensures x in Referenced(w) {
      var k :| k in w1.files && w1.files[k].sha == x;
      assert w.files[k].sha == x;
    }
    assert Uploading(w1) == Uploading(w);
  }

  /** A deletion exposes its hash exactly when a row of it is present or on its way. */
  lemma DeleteKeepsBalance(w: World, sha: Sha, rest: set<Sha>, exposed: set<Sha>)
    requires Balanced(w, rest + {sha}, exposed)
    ensures Balanced(DeleteBytes(w, sha), rest, if Wanted(w, sha) then exposed + {sha} else exposed)
  {
    assert Referenced(DeleteBytes(w, sha)) == Referenced(w) && Uploading(DeleteBytes(w, sha)) == Uploading(w);
  }

  predicate Wanted(w: World, sha: Sha) {
    sha in Referenced(w) || sha in Uploading(w)
  }

  function ToSet(s: seq<Sha>): set<Sha> {
    set x | x in s
  }

  predicate Eligible(w: World, id: FileId) {
    id in w.files && w.files[id].expired && !w.files[id].named
  }

  class FileGc {
    var files: map<FileId, FileRow>
    var uploads: map<UploadId, Sha>
    var storage: set<Sha>
    ghost var orphans: set<Sha>

    ghost function Now(): World
      reads this
    {
      World(files, uploads, storage, orphans)
    }

    constructor ()
      ensures Now() == World(map[], map[], {}, {})
    {
      files, uploads, storage, orphans := map[], map[], {}, {};
    }

    /** The first half of an upload: file_store.put. */
    method StoreBytes(u: UploadId, sha: Sha)
      requires u !in uploads
      modifies this
      ensures Now() == Put(old(Now()), u, sha)
      ensures files == old(files) && uploads == old(uploads)[u := sha] && storage == old(storage) + {sha}
    {
      storage := storage + {sha};
      uploads := uploads[u := sha];
    }

    /** The second half: insert_file. */
    method InsertFile(u: UploadId, id: FileId, row: FileRow)
      requires u in uploads
      modifies this
      ensures Now() == Insert(old(Now()), u, id, row)
      ensures uploads == old(uploads) - {u} && storage == old(storage)
      ensures if exists k :: k in old(files) && old(files)[k].sha == row.sha && old(files)[k].user == row.user
              then files == old(files) else files == old(files)[id := row]
    {
      if !(exists k :: k in files && files[k].sha == row.sha && files[k].user == row.user) {
        files := files[id := row];
      }
      uploads := uploads - {u};
    }

    /** Halves of other users' uploads, any number of them, while the sweep waits. Generated
        ids never repeat. */
    method Others(batch: seq<FileId>, ghost inHand: set<Sha>, ghost exposed: set<Sha>)
      requires Balanced(Now(), inHand, exposed)
      modifies this
      ensures Balanced(Now(), inHand, exposed)
      ensures forall id :: id in old(files) ==> id in files && files[id] == old(files)[id]
      ensures forall id :: id in batch ==> (id in files <==> id in old(files))
    {
      var turns: nat :| 0 <= turns;
      for i := 0 to turns
        invariant Balanced(Now(), inHand, exposed)
        invariant forall id :: id in old(files) ==> id in files && files[id] == old(files)[id]
        invariant forall id :: id in batch ==> (id in files <==> id in old(files))
      {
        var u: UploadId, sha: Sha, id: FileId, user: string, expired: bool := *, *, *, *, *;
        if u !in uploads {
          PutKeepsBalance(Now(), u, sha, inHand, exposed);
          StoreBytes(u, sha);
        } else if id in files || id in batch {
          AbandonKeepsBalance(Now(), u, inHand, exposed);
          orphans := orphans + {uploads[u]};
          uploads := uploads - {u};
        } else {
          InsertMoves(Now(), u, id, FileRow(uploads[u], user, expired, false));
          InsertFile(u, id, FileRow(uploads[u], user, expired, false));
        }
      }
    }

    /** One row's transaction: delete it, and count the other rows of its hash. */
    method DropOne(id: FileId, batch: seq<FileId>, toDelete: seq<Sha>, ghost exposed: set<Sha>) returns (next: seq<Sha>)
      requires Balanced(Now(), ToSet(toDelete), exposed) && id in files && id in batch
      modifies this
      ensures Balanced(Now(), ToSet(next), exposed) && id !in files
      ensures forall k :: k in old(files) && k != id ==> k in files && files[k] == old(files)[k]
      ensures forall k :: k in batch && k != id ==> (k in files <==> k in old(files))
    {
      Others(batch, ToSet(toDelete), exposed);
      var sha := files[id].sha;
      DropKeepsBalance(Now(), id, ToSet(toDelete), exposed);
      files := files - {id};
      next := toDelete;
      if !(exists k :: k in files && files[k].sha == sha) {
        assert ToSet(toDelete + [sha]) == ToSet(toDelete) + {sha};
        next := toDelete + [sha];
      }
    }

    /** The sweep's database half: delete each row, and note the hashes left unreferenced. */
    method DropBatch(batch: seq<FileId>, ghost exposed: set<Sha>) returns (deleted: nat, toDelete: seq<Sha>)
      requires Balanced(Now(), {}, exposed)
      requires forall i :: 0 <= i < |batch| ==> Eligible(Now(), batch[i])
      requires forall i, j :: 0 <= i < j < |batch| ==> batch[i] != batch[j]
      modifies this
      ensures Balanced(Now(), ToSet(toDelete), exposed) && deleted == |batch|
      ensures forall id :: id in old(files) && id !in batch ==> id in files && files[id] == old(files)[id]
      ensures forall id :: id in batch ==> id !in files
    {
      deleted, toDelete := 0, [];
      assert ToSet(toDelete) == {};
      for i := 0 to |batch|
        invariant Balanced(Now(), ToSet(toDelete), exposed) && deleted == i
        invariant forall id :: id in old(files) && id !in batch[..i] ==> id in files && files[id] == old(files)[id]
        invariant forall id :: id in batch[..i] ==> id !in files
      {
        var id := batch[i];
        assert id in old(files) && id !in batch[..i];
        toDelete := DropOne(id, batch, toDelete, exposed);
        deleted := deleted + 1;
        assert batch[..i + 1] == batch[..i] + [id];
      }
      assert batch[..|batch|] == batch;
    }

    /** One entry of the storage half: re-check, and delete the bytes if nothing refers to
        them. Others act before the re-check and between it and the deletion; the hash is
        exposed exactly when a row of it is then present or on its way. */
    method ReclaimOne(sha: Sha, batch: seq<FileId>, ghost rest: set<Sha>, ghost exposed: set<Sha>)
      returns (ghost after: set<Sha>)
      requires Balanced(Now(), rest + {sha}, exposed)
      modifies this
      ensures Balanced(Now(), rest, after)
      ensures after == exposed || (after == exposed + {sha} && Wanted(Now(), sha))
      ensures forall id :: id in old(files) ==> id in files && files[id] == old(files)[id]
      ensures forall id :: id in batch ==> (id in files <==> id in old(files))
    {
      Others(batch, rest + {sha}, exposed);
      if exists k :: k in files && files[k].sha == sha {
        LiveIsReferenced(Now(), sha);
        return exposed;
      }
      Others(batch, rest + {sha}, exposed);
      DeleteKeepsBalance(Now(), sha, rest, exposed);
      after := if Wanted(Now(), sha) then exposed + {sha} else exposed;
      storage := storage - {sha};
    }

    method ReclaimAll(toDelete: seq<Sha>, batch: seq<FileId>, ghost before: set<Sha>) returns (ghost exposed: set<Sha>)
      requires Balanced(Now(), ToSet(toDelete), before)
      modifies this
      ensures Balanced(Now(), {}, exposed) && exposed <= before + ToSet(toDelete)
      ensures forall id :: id in old(files) ==> id in files && files[id] == old(files)[id]
      ensures forall id :: id in batch ==> (id in files <==> id in old(files))
    {
      exposed := before;
      assert toDelete[0..] == toDelete;
      for i := 0 to |toDelete|
        invariant Balanced(Now(), ToSet(toDelete[i..]), exposed) && exposed <= before + ToSet(toDelete)
        invariant forall id :: id in old(files) ==> id in files && files[id] == old(files)[id]
        invariant forall id :: id in batch ==> (id in files <==> id in old(files))
      {
        assert toDelete[i..] == [toDelete[i]] + toDelete[i + 1..];
        assert ToSet(toDelete[i..]) == ToSet(toDelete[i + 1..]) + {toDelete[i]};
        exposed := ReclaimOne(toDelete[i], batch, ToSet(toDelete[i + 1..]), exposed);
      }
      assert ToSet(toDelete[|toDelete|..]) == {};
    }

    /** _gc_files_once over the batch its query returned, hashes repeated or not, with halves
        of uploads before it, at every await, and after it. Nothing dead is left in storage
        but what was given up, and what a row present or on its way may lack was wanted at
        its deletion. */
    method SweepOnce(batch: seq<FileId>) returns (deleted: nat, ghost exposed: set<Sha>)
      requires Coincide(Now())
      requires forall i :: 0 <= i < |batch| ==> Eligible(Now(), batch[i])
      requires forall i, j :: 0 <= i < j < |batch| ==> batch[i] != batch[j]
      modifies this
      ensures storage <= Referenced(Now()) + Uploading(Now()) + orphans && deleted == |batch|
      ensures (Referenced(Now()) + Uploading(Now())) - storage <= exposed
      ensures exposed == {} && orphans == {} ==> Coincide(Now())
      ensures forall id :: id in old(files) && id !in batch ==> id in files && files[id] == old(files)[id]
      ensures forall id :: id in batch ==> id !in files
    {
      var toDelete;
      deleted, toDelete := DropBatch(batch, {});
      exposed := ReclaimAll(toDelete, batch, {});
    }
  }
}
