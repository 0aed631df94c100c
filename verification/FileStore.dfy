/** A user's named file directory: allocation of names, byte accounting, the quota gate and
    the commands over it (bp_router/file_store.py, bp_router/dispatch.py). */
module FileStore {
  import opened Options
  import opened StashNames

  type FileId = nat

  /** A directory row is keyed by (scope, file name). */
  type Key = (string, string)

  datatype Row = Row(file: FileId, size: nat)

  type Names = map<Key, Row>

  datatype Dedup = AppendCount | Overwrite | Refuse

  const MAX_DEDUP_ATTEMPTS: nat := 1000

  // ------------------------------------------------------------ accounting

  /** Per-user usage: the sum over all directory rows; a shared blob counts once a name. */
  ghost function Usage(names: Names): nat {
    if names == map[] then 0
    else
      var k :| k in names;
      names[k].size + Usage(names - {k})
  }

  lemma {:induction false} UsageRemove(names: Names, k: Key)
    requires k in names
    ensures Usage(names) == names[k].size + Usage(names - {k})
    decreases |names|
  {
    var p :| p in names && Usage(names) == names[p].size + Usage(names - {p});
    if p != k {
      UsageRemove(names - {p}, k);
      UsageRemove(names - {k}, p);
      assert names - {p} - {k} == names - {k} - {p};
    }
  }

  lemma UsageUpdate(names: Names, k: Key, row: Row)
    ensures Usage(names[k := row]) == Usage(names) + row.size - (if k in names then names[k].size else 0)
  {
    UsageRemove(names[k := row], k);
    if k in names {
      UsageRemove(names, k);
      assert names[k := row] - {k} == names - {k};
    } else {
      assert names[k := row] - {k} == names;
    }
  }

  lemma {:induction false} UsageSubset(names: Names, gone: set<Key>)
    ensures Usage(names - gone) <= Usage(names)
    decreases |gone|
  {
    if gone == {} {
      assert names - gone == names;
    } else {
      var k :| k in gone;
      UsageSubset(names, gone - {k});
      var rest := names - (gone - {k});
      if k in rest {
        UsageRemove(rest, k);
        assert rest - {k} == names - gone;
      } else {
        assert rest == names - gone;
      }
    }
  }

  // ------------------------------------------------------------ allocation

  datatype Allocation = Saved(name: string, added: int) | FilenameExists

  /** The first free counter from n to last. */
  function FirstFree(names: Names, scope: string, name: string, n: nat, last: nat): Option<nat>
    decreases last + 1 - n
  {
    if n > last then None
    else if (scope, Candidate(name, n)) !in names then Some(n)
    else FirstFree(names, scope, name, n + 1, last)
  }

  /** _allocate_name when nobody else writes meanwhile. */
  function Allocate(names: Names, scope: string, name: string, row: Row, dedup: Dedup): (Names, Allocation) {
    var key := (scope, name);
    if key !in names then (names[key := row], Saved(name, row.size))
    else if names[key].file == row.file then (names, Saved(name, 0))
    else if dedup == Refuse then (names, FilenameExists)
    else if dedup == Overwrite then (names[key := row], Saved(name, row.size - names[key].size))
    else
      match FirstFree(names, scope, name, 1, MAX_DEDUP_ATTEMPTS)
      case None => (names, FilenameExists)
      case Some(n) => (names[(scope, Candidate(name, n)) := row], Saved(Candidate(name, n), row.size))
  }

  lemma {:induction false} FirstFreeIsLeast(names: Names, scope: string, name: string, n: nat, last: nat)
    requires n <= last + 1
    ensures match FirstFree(names, scope, name, n, last)
            case Some(m) =>
              && n <= m <= last && (scope, Candidate(name, m)) !in names
              && forall k :: n <= k < m ==> (scope, Candidate(name, k)) in names
            case None => forall k :: n <= k <= last ==> (scope, Candidate(name, k)) in names
    decreases last + 1 - n
  {
    if n <= last && (scope, Candidate(name, n)) in names {
      FirstFreeIsLeast(names, scope, name, n + 1, last);
    }
  }

  predicate SameElsewhere(names: Names, after: Names, key: Key) {
    after - {key} == names - {key}
  }

  predicate Bound(names: Names, key: Key, file: FileId) {
    key in names && names[key].file == file
  }

  lemma WriteBinds(names: Names, key: Key, row: Row)
    ensures Bound(names[key := row], key, row.file) && SameElsewhere(names, names[key := row], key)
    ensures Usage(names[key := row]) == Usage(names) + row.size - (if key in names then names[key].size else 0)
  {
    UsageUpdate(names, key, row);
    assert names[key := row] - {key} == names - {key};
  }

  /** Nothing is written, or one row is: where the name was asked for, or at a free candidate. */
  lemma AllocateCases(names: Names, scope: string, name: string, row: Row, dedup: Dedup)
    ensures var (after, outcome) := Allocate(names, scope, name, row, dedup);
            var key := (scope, name);
            if outcome.FilenameExists? then after == names && key in names && !Bound(names, key, row.file)
            else if Bound(names, key, row.file) then after == names && outcome == Saved(name, 0)
            else
              && after == names[(scope, outcome.name) := row]
              && outcome.added == row.size - (if (scope, outcome.name) in names then names[(scope, outcome.name)].size else 0)
              && ((scope, outcome.name) in names ==> outcome.name == name && dedup == Overwrite)
              && (outcome.name == name || exists n :: 1 <= n && outcome.name == Candidate(name, n))
  {
    FirstFreeIsLeast(names, scope, name, 1, MAX_DEDUP_ATTEMPTS);
  }

  /** The whole contract of an allocation: the name handed back is bound to the blob, no
      other row changes, and `added` is exactly the change in the user's usage. */
  lemma AllocateBinds(names: Names, scope: string, name: string, row: Row, dedup: Dedup)
    ensures var (after, outcome) := Allocate(names, scope, name, row, dedup);
            if outcome.FilenameExists? then after == names && (scope, name) in names && !Bound(names, (scope, name), row.file)
            else
              && Bound(after, (scope, outcome.name), row.file)
              && SameElsewhere(names, after, (scope, outcome.name))
              && Usage(after) == Usage(names) + outcome.added
              && outcome.added <= row.size
              && (Bound(names, (scope, name), row.file) ==> after == names && outcome.name == name)
              && ((scope, outcome.name) in names ==> outcome.name == name && (dedup == Overwrite || after == names))
              && (ValidBare(name) ==> ValidBare(outcome.name))
  {
    AllocateCases(names, scope, name, row, dedup);
    var (after, outcome) := Allocate(names, scope, name, row, dedup);
    if outcome.Saved? {
      if after != names {
        WriteBinds(names, (scope, outcome.name), row);
      }
      if outcome.name != name {
        var n :| 1 <= n && outcome.name == Candidate(name, n);
        CandidateInjective(name, n, n);
        if ValidBare(name) { CandidateValid(name, n); }
      }
    }
  }

  function InScope(names: Names, scope: string): set<string> {
    set k | k in names && k.0 == scope :: k.1
  }

  lemma {:induction false} ManyCandidates(names: Names, scope: string, name: string, count: nat) returns (found: set<string>)
    requires forall k :: 1 <= k <= count ==> (scope, Candidate(name, k)) in names
    requires (scope, name) in names
    ensures found <= InScope(names, scope) && |found| == count + 1
    ensures forall s :: s in found ==> s == name || exists k :: 1 <= k <= count && s == Candidate(name, k)
  {
    if count == 0 {
      found := {name};
    } else {
      var fewer := ManyCandidates(names, scope, name, count - 1);
      var last := Candidate(name, count);
      assert last !in fewer by {
        CandidateInjective(name, count, count);
        forall k | 1 <= k <= count - 1 ensures Candidate(name, k) != last { CandidateInjective(name, k, count); }
      }
      assert (scope, last) in names;
      found := fewer + {last};
    }
  }

  lemma {:induction false} SubsetSize<T>(a: set<T>, b: set<T>)
    requires a <= b
    ensures |a| <= |b|
  {
    if a != {} {
      var x :| x in a;
      SubsetSize(a - {x}, b - {x});
    }
  }

  predicate LeastFree(names: Names, scope: string, name: string, saved: string) {
    exists n :: 1 <= n <= MAX_DEDUP_ATTEMPTS && saved == Candidate(name, n) && (scope, saved) !in names
                && forall k :: 1 <= k < n ==> (scope, Candidate(name, k)) in names
  }

  /** Counting up gives up only in a directory scope that is really full: it holds at
      least 1001 distinct names. Otherwise the least free counter is taken. */
  lemma AppendCountGivesUpOnlyWhenFull(names: Names, scope: string, name: string, row: Row)
    ensures var outcome := Allocate(names, scope, name, row, AppendCount).1;
            if outcome.FilenameExists? then |InScope(names, scope)| >= MAX_DEDUP_ATTEMPTS + 1
            else outcome.name == name || LeastFree(names, scope, name, outcome.name)
  {
    FirstFreeIsLeast(names, scope, name, 1, MAX_DEDUP_ATTEMPTS);
    if Allocate(names, scope, name, row, AppendCount).1.FilenameExists? {
      var found := ManyCandidates(names, scope, name, MAX_DEDUP_ATTEMPTS);
      SubsetSize(found, InScope(names, scope));
    }
  }

  /** Another blob has the name, and the policy refuses, or its thousand candidates are
      bound too. */
  predicate Taken(names: Names, key: Key, file: FileId, dedup: Dedup) {
    && key in names && names[key].file != file
    && (dedup.Refuse? || (dedup.AppendCount? && AllBound(names, key.0, key.1)))
  }

  predicate AllBound(names: Names, scope: string, name: string) {
    forall n :: 1 <= n <= MAX_DEDUP_ATTEMPTS ==> (scope, Candidate(name, n)) in names
  }

  /** The name a policy saves under: the one asked for when it is free, bound to the same
      blob, or to be overwritten; else the least free candidate. */
  predicate SavedUnder(names: Names, key: Key, file: FileId, dedup: Dedup, saved: string) {
    if key !in names || names[key].file == file || dedup.Overwrite? then saved == key.1
    else dedup.AppendCount? && LeastFree(names, key.0, key.1, saved)
  }

  /** What each policy does: a name taken by another blob is refused, repointed, or counted
      up from; a free name, or one that already has the blob, is saved as it is by all. */
  lemma PolicyDecides(names: Names, scope: string, name: string, row: Row, dedup: Dedup)
    ensures var (after, outcome) := Allocate(names, scope, name, row, dedup);
            var key := (scope, name);
            && (outcome.FilenameExists? <==> Taken(names, key, row.file, dedup))
            && (outcome.FilenameExists? ==> after == names)
            && (outcome.Saved? ==>
                  && SavedUnder(names, key, row.file, dedup, outcome.name)
                  && after == (if Bound(names, key, row.file) then names else names[(scope, outcome.name) := row]))
  {
    FirstFreeIsLeast(names, scope, name, 1, MAX_DEDUP_ATTEMPTS);
    var m := FirstFree(names, scope, name, 1, MAX_DEDUP_ATTEMPTS);
    if m.Some? {
      assert (scope, Candidate(name, m.value)) !in names;
      assert LeastFree(names, scope, name, Candidate(name, m.value));
    }
  }

  /** UPDATE … WHERE touches an existing row only. */
  function Repoint(names: Names, key: Key, row: Row): Names {
    if key in names then names[key := row] else names
  }

  lemma CandidatesDiffer(name: string)
    ensures forall n: nat :: Candidate(name, n) != name
  {
    forall n: nat ensures Candidate(name, n) != name { CandidateInjective(name, n, n); }
  }

  /** The `file_names` rows of one user, and the statements over them. When `quiet` is
      false, other transactions of the user may write between any two statements. */
  class Directory {
    var names: Names

    constructor ()
      ensures names == map[]
    {
      names := map[];
    }

    method Others(quiet: bool)
      modifies this
      ensures quiet ==> names == old(names)
    {
      var written: Names := *;
      if !quiet { names := written; }
    }

    /** INSERT … ON CONFLICT DO NOTHING. */
    method InsertName(key: Key, row: Row) returns (inserted: bool)
      modifies this
      ensures inserted == (key !in old(names))
      ensures names == if inserted then old(names)[key := row] else old(names)
    {
      inserted := key !in names;
      if inserted { names := names[key := row]; }
    }

    /** UPDATE … WHERE. */
    method RepointName(key: Key, row: Row)
      modifies this
      ensures names == Repoint(old(names), key, row)
    {
      if key in names { names := names[key := row]; }
    }

    /** count_user_storage_bytes. */
    method CountBytes() returns (total: nat)
      ensures total == Usage(names)
    {
      total := 0;
      var rest := names;
      while rest != map[]
        invariant total + Usage(rest) == Usage(names)
        decreases |rest|
      {
        var k :| k in rest;
        UsageRemove(rest, k);
        total, rest := total + rest[k].size, rest - {k};
      }
    }

    /** _allocate_name, statement by statement. `seen` is the directory just before the last
        statement, `replaced` the row an overwrite read before its UPDATE. Alone it is
        Allocate. Under interference every other saving binds the name and counts its
        bytes right; an UPDATE binds the name exactly when its row is still there, and
        counts right exactly when that row still has the size that was read. */
    method AllocateName(scope: string, name: string, row: Row, dedup: Dedup, quiet: bool)
      returns (outcome: Allocation, seen: Names, replaced: Option<Row>)
      modifies this
      ensures quiet ==> (names, outcome) == Allocate(old(names), scope, name, row, dedup)
      ensures outcome.Saved? && replaced.None? ==>
                && Bound(names, (scope, outcome.name), row.file)
                && Usage(names) == Usage(seen) + outcome.added
                && SameElsewhere(seen, names, (scope, outcome.name))
      ensures replaced.Some? ==>
                && dedup == Overwrite && outcome == Saved(name, row.size - replaced.value.size)
                && names == Repoint(seen, (scope, name), row)
                && (Bound(names, (scope, name), row.file) <==> (scope, name) in seen)
                && ((scope, name) in seen ==>
                      (Usage(names) == Usage(seen) + outcome.added <==> seen[(scope, name)].size == replaced.value.size))
      ensures outcome.FilenameExists? ==>
                names == seen && if dedup == Refuse then !Bound(seen, (scope, name), row.file)
                                 else (scope, Candidate(name, MAX_DEDUP_ATTEMPTS)) in seen
      ensures outcome.Saved? && replaced.None? ==>
                if (scope, outcome.name) in seen then names == seen && outcome == Saved(name, 0)
                else outcome.added == row.size
      ensures outcome.Saved? && outcome.name != name ==>
                dedup != Refuse && exists n :: 1 <= n <= MAX_DEDUP_ATTEMPTS && outcome.name == Candidate(name, n)
      ensures (scope, name) in old(names) && old(names)[(scope, name)].file != row.file ==>
                match dedup
                case Refuse => outcome.FilenameExists? && names == old(names)
                case Overwrite => replaced == Some(old(names)[(scope, name)])
                case AppendCount => outcome.Saved? ==> outcome.name != name
    {
      var key := (scope, name);
      CandidatesDiffer(name);
      replaced := None;
      var existing := if key in names then Some(names[key]) else None;
      if existing.None? {
        Others(quiet);
        seen := names;
        var inserted := InsertName(key, row);
        if inserted {
          WriteBinds(seen, key, row);
          return Saved(name, row.size), seen, None;
        }
        Others(quiet);
        existing := if key in names then Some(names[key]) else None;
      }
      seen := names;
      if existing.Some? && existing.value.file == row.file {
        return Saved(name, 0), seen, None;
      }
      if dedup == Refuse {
        return FilenameExists, seen, None;
      }
      if dedup == Overwrite && existing.Some? {
        Others(quiet);
        seen := names;
        WriteBinds(seen, key, row);
        RepointName(key, row);
        return Saved(name, row.size - existing.value.size), seen, existing;
      }
      var n := 1;
      while n <= MAX_DEDUP_ATTEMPTS
        invariant 1 <= n <= MAX_DEDUP_ATTEMPTS + 1 && replaced.None? && names == seen
        invariant n > 1 ==> (scope, Candidate(name, n - 1)) in seen
        invariant quiet ==> names == old(names)
        invariant quiet ==> FirstFree(names, scope, name, 1, MAX_DEDUP_ATTEMPTS) == FirstFree(names, scope, name, n, MAX_DEDUP_ATTEMPTS)
      {
        Others(quiet);
        seen := names;
        var inserted := InsertName((scope, Candidate(name, n)), row);
        if inserted {
          WriteBinds(seen, (scope, Candidate(name, n)), row);
          return Saved(Candidate(name, n), row.size), seen, None;
        }
        n := n + 1;
      }
      return FilenameExists, seen, None;
    }
  }

  /** An overwrite reads its row; another transaction deletes it; the UPDATE then touches
      nothing, while the answer says the name was saved: the name is unbound, and the
      reported bytes are wrong unless the sizes are equal. */
  lemma DeletedUnderOverwrite(names: Names, scope: string, name: string, row: Row)
    requires (scope, name) in names && !Bound(names, (scope, name), row.file)
    ensures var key, answer, seen := (scope, name), Allocate(names, scope, name, row, Overwrite).1, names - {(scope, name)};
            && answer == Saved(name, row.size - names[key].size)
            && !Bound(Repoint(seen, key, row), key, row.file)
            && (Usage(Repoint(seen, key, row)) == Usage(seen) + answer.added <==> row.size == names[key].size)
  {
  }

  // ------------------------------------------------------------ commands

  datatype Blob = Blob(file: FileId, size: nat, original: Option<string>)

  /** One user's directory and content-addressed blobs. */
  datatype Store = Store(names: Names, blobs: map<string, Blob>)

  datatype Failure = NotFound | InvalidFilename | QuotaExceeded | TooLarge | NameTaken

  datatype Reply = SavedAs(name: string) | Deleted(count: nat) | Failed(why: Failure)

  datatype Content = Content(sha: string, size: nat)

  datatype Command =
    | StoreFile(sha: string, asked: Option<string>, persistent: bool, dedup: Dedup)
    | WriteFile(content: Content, newFile: FileId, filename: string, persistent: bool, dedup: Dedup)
    | CopyFile(src: string, dst: string, move: bool)
    | DeleteFile(name: string)

  datatype Limits = Limits(ceiling: Option<nat>, maxUpload: nat, fileIdName: FileId -> string)

  /** _quota_ok. */
  ghost predicate QuotaOk(names: Names, added: int, ceiling: Option<nat>) {
    added <= 0 || ceiling.None? || Usage(names) + added <= ceiling.value
  }

  function Answer(persistent: bool, outcome: Allocation): Reply {
    match outcome
    case Saved(name, _) => SavedAs(DisplayName(persistent, name))
    case FilenameExists => Failed(NameTaken)
  }

  /** `frame.filename or blob.original_filename or blob.file_id`. */
  function ChosenName(asked: Option<string>, blob: Blob, limits: Limits): string {
    if asked.Some? && asked.value != "" then asked.value
    else if blob.original.Some? && blob.original.value != "" then blob.original.value
    else limits.fileIdName(blob.file)
  }

  /** _handle_file_store, after the caller's task gave its scope. */
  ghost function ExecStore(s: Store, session: string, c: Command, limits: Limits): (Store, Reply)
    requires c.StoreFile?
  {
    if c.sha !in s.blobs then (s, Failed(NotFound))
    else
      var blob := s.blobs[c.sha];
      var name, scope := ChosenName(c.asked, blob, limits), ScopeFor(c.persistent, session);
      if !ValidBare(name) then (s, Failed(InvalidFilename))
      else if !QuotaOk(s.names, if Bound(s.names, (scope, name), blob.file) then 0 else blob.size, limits.ceiling)
      then (s, Failed(QuotaExceeded))
      else
        var (names, outcome) := Allocate(s.names, scope, name, Row(blob.file, blob.size), c.dedup);
        (s.(names := names), Answer(c.persistent, outcome))
  }

  /** _file_write. */
  ghost function ExecWrite(s: Store, session: string, c: Command, limits: Limits): (Store, Reply)
    requires c.WriteFile?
  {
    var size, sha, scope := c.content.size, c.content.sha, ScopeFor(c.persistent, session);
    if !ValidBare(c.filename) then (s, Failed(InvalidFilename))
    else if size > limits.maxUpload then (s, Failed(TooLarge))
    else
      var idem := sha in s.blobs && Bound(s.names, (scope, c.filename), s.blobs[sha].file);
      if !QuotaOk(s.names, if idem then 0 else size, limits.ceiling) then (s, Failed(QuotaExceeded))
      else
        var blob := if sha in s.blobs then s.blobs[sha] else Blob(c.newFile, size, Some(c.filename));
        var (names, outcome) := Allocate(s.names, scope, c.filename, Row(blob.file, size), c.dedup);
        (Store(names, s.blobs[sha := blob]), Answer(c.persistent, outcome))
  }

  /** _file_copy: a copy, or a move with delete_original. */
  ghost function ExecCopy(s: Store, session: string, c: Command, limits: Limits): (Store, Reply)
    requires c.CopyFile?
  {
    var src, dst := SplitStashName(c.src), SplitStashName(c.dst);
    if src.None? || dst.None? then (s, Failed(InvalidFilename))
    else
      var from, to := (ScopeFor(src.value.persistent, session), src.value.bare),
                      (ScopeFor(dst.value.persistent, session), dst.value.bare);
      if from !in s.names then (s, Failed(NotFound))
      else if from == to then (s, SavedAs(DisplayName(dst.value.persistent, dst.value.bare)))
      else
        var row := s.names[from];
        if !c.move && !QuotaOk(s.names, if Bound(s.names, to, row.file) then 0 else row.size, limits.ceiling)
        then (s, Failed(QuotaExceeded))
        else
          var (names, outcome) := Allocate(s.names, to.0, to.1, row, AppendCount);
          if outcome.FilenameExists? then (s, Failed(NameTaken))
          else (s.(names := if c.move then names - {from} else names), Answer(dst.value.persistent, outcome))
  }

  /** The rows a delete names: one, or all that its glob matches in the database. */
  function DeletedKeys(names: Names, scope: string, bare: string): set<Key> {
    set k | k in names && k.0 == scope && (if '*' in bare then LikeMatch(GlobToLike(bare), k.1) else k.1 == bare)
  }

  ghost function ExecDelete(s: Store, session: string, c: Command): (Store, Reply)
    requires c.DeleteFile?
  {
    var persistent := PERSIST <= c.name;
    var bare := if persistent then c.name[|PERSIST|..] else c.name;
    if bare == "" || '/' in bare then (s, Failed(InvalidFilename))
    else
      var gone := DeletedKeys(s.names, ScopeFor(persistent, session), bare);
      (s.(names := s.names - gone), Deleted(|gone|))
  }

  ghost function Exec(s: Store, session: string, c: Command, limits: Limits): (Store, Reply) {
    match c
    case StoreFile(_, _, _, _) => ExecStore(s, session, c, limits)
    case WriteFile(_, _, _, _, _) => ExecWrite(s, session, c, limits)
    case CopyFile(_, _, _) => ExecCopy(s, session, c, limits)
    case DeleteFile(_) => ExecDelete(s, session, c)
  }

  /** Commands of any of the user's sessions, one at a time. */
  ghost function Run(s: Store, commands: seq<(string, Command)>, limits: Limits): Store
    decreases |commands|
  {
    if commands == [] then s
    else
      var last := commands[|commands| - 1];
      Exec(Run(s, commands[..|commands| - 1], limits), last.0, last.1, limits).0
  }

  // ------------------------------------------------------------ main results

  /** The addition is nothing, or there is no ceiling, or it fits under it. */
  ghost predicate Fits(names: Names, key: Key, row: Row, ceiling: Option<nat>) {
    row.size == 0 || Bound(names, key, row.file) || ceiling.None? || Usage(names) + row.size <= ceiling.value
  }

  /** A successful reply: the saved name, as its caller sees it. */
  ghost predicate AnswersSaved(names: Names, key: Key, file: FileId, dedup: Dedup, persistent: bool, reply: Reply) {
    exists saved :: SavedUnder(names, key, file, dedup, saved) && reply == SavedAs(DisplayName(persistent, saved))
  }

  /** When a store succeeds, under which name, and why it fails otherwise: no such blob, a
      bad name, no room, or a name that is taken. The name asked for counts first, then the
      one the blob was uploaded with. */
  lemma StoreAnswers(s: Store, session: string, sha: string, asked: Option<string>, persistent: bool, dedup: Dedup, limits: Limits)
    ensures var (after, reply) := Exec(s, session, StoreFile(sha, asked, persistent, dedup), limits);
            if sha !in s.blobs then (after, reply) == (s, Failed(NotFound))
            else
              var blob := s.blobs[sha];
              exists name :: Preferred(asked, blob.original, limits.fileIdName(blob.file), name) &&
                var key := (ScopeFor(persistent, session), name);
                if !ValidBare(name) then (after, reply) == (s, Failed(InvalidFilename))
                else if !Fits(s.names, key, Row(blob.file, blob.size), limits.ceiling) then (after, reply) == (s, Failed(QuotaExceeded))
                else if Taken(s.names, key, blob.file, dedup) then (after, reply) == (s, Failed(NameTaken))
                else AnswersSaved(s.names, key, blob.file, dedup, persistent, reply)
  {
    if sha in s.blobs {
      var blob := s.blobs[sha];
      var name, scope := ChosenName(asked, blob, limits), ScopeFor(persistent, session);
      var row := Row(blob.file, blob.size);
      assert Preferred(asked, blob.original, limits.fileIdName(blob.file), name);
      PolicyDecides(s.names, scope, name, row, dedup);
      var outcome := Allocate(s.names, scope, name, row, dedup).1;
      if outcome.Saved? { assert SavedUnder(s.names, (scope, name), row.file, dedup, outcome.name); }
    }
  }

  predicate Given(name: Option<string>) {
    name.Some? && name.value != ""
  }

  /** The first of the three that is there and not empty; the last always counts. */
  predicate Preferred(asked: Option<string>, original: Option<string>, id: string, name: string) {
    if Given(asked) then name == asked.value
    else if Given(original) then name == original.value
    else name == id
  }

  /** The same for an inline write, whose blob is known or new; a write refused for its name
      has registered its blob all the same. */
  lemma WriteAnswers(s: Store, session: string, content: Content, newFile: FileId, name: string, persistent: bool, dedup: Dedup, limits: Limits)
    ensures var (after, reply) := Exec(s, session, WriteFile(content, newFile, name, persistent, dedup), limits);
            var key, known := (ScopeFor(persistent, session), name), content.sha in s.blobs;
            var blob := if known then s.blobs[content.sha] else Blob(newFile, content.size, Some(name));
            if !ValidBare(name) then (after, reply) == (s, Failed(InvalidFilename))
            else if content.size > limits.maxUpload then (after, reply) == (s, Failed(TooLarge))
            else if !(known && Bound(s.names, key, blob.file)) && content.size > 0 && limits.ceiling.Some?
                    && Usage(s.names) + content.size > limits.ceiling.value
            then (after, reply) == (s, Failed(QuotaExceeded))
            else
              && after.blobs == s.blobs[content.sha := blob]
              && if Taken(s.names, key, blob.file, dedup) then after.names == s.names && reply == Failed(NameTaken)
                 else AnswersSaved(s.names, key, blob.file, dedup, persistent, reply)
  {
    var scope := ScopeFor(persistent, session);
    var blob := if content.sha in s.blobs then s.blobs[content.sha] else Blob(newFile, content.size, Some(name));
    PolicyDecides(s.names, scope, name, Row(blob.file, content.size), dedup);
    var outcome := Allocate(s.names, scope, name, Row(blob.file, content.size), dedup).1;
    if outcome.Saved? { assert SavedUnder(s.names, (scope, name), blob.file, dedup, outcome.name); }
  }

  /** And for a copy or a move: the gate is for copies only, a name onto itself changes
      nothing, and a move that succeeds has removed its source. */
  lemma CopyAnswers(s: Store, session: string, src: string, dst: string, move: bool, limits: Limits)
    ensures var (after, reply) := Exec(s, session, CopyFile(src, dst, move), limits);
            var f, t := SplitStashName(src), SplitStashName(dst);
            if f.None? || t.None? then (after, reply) == (s, Failed(InvalidFilename))
            else
              var from, to := (ScopeFor(f.value.persistent, session), f.value.bare), (ScopeFor(t.value.persistent, session), t.value.bare);
              if from !in s.names then (after, reply) == (s, Failed(NotFound))
              else if from == to then (after, reply) == (s, SavedAs(dst))
              else if !move && !Fits(s.names, to, s.names[from], limits.ceiling) then (after, reply) == (s, Failed(QuotaExceeded))
              else if Taken(s.names, to, s.names[from].file, AppendCount) then (after, reply) == (s, Failed(NameTaken))
              else
                && AnswersSaved(s.names, to, s.names[from].file, AppendCount, t.value.persistent, reply)
                && after.blobs == s.blobs && (from in after.names <==> !move)
  {
    var f, t := SplitStashName(src), SplitStashName(dst);
    if f.Some? && t.Some? {
      DisplayRoundTrip(t.value.persistent, t.value.bare, dst);
      var from, to := (ScopeFor(f.value.persistent, session), f.value.bare), (ScopeFor(t.value.persistent, session), t.value.bare);
      if from in s.names && from != to {
        PolicyDecides(s.names, to.0, to.1, s.names[from], AppendCount);
        var (names, outcome) := Allocate(s.names, to.0, to.1, s.names[from], AppendCount);
        if outcome.Saved? { assert SavedUnder(s.names, to, s.names[from].file, AppendCount, outcome.name); }
      }
    }
  }

  /** A command that lets usage grow stays within the ceiling. */
  lemma CommandRespectsQuota(s: Store, session: string, c: Command, limits: Limits)
    ensures var after := Exec(s, session, c, limits).0;
            Usage(after.names) <= Usage(s.names)
            || (limits.ceiling.Some? ==> Usage(after.names) <= limits.ceiling.value)
  {
    match c
    case StoreFile(sha, filename, persistent, dedup) =>
      if sha in s.blobs {
        var blob := s.blobs[sha];
        AllocateBinds(s.names, ScopeFor(persistent, session), ChosenName(filename, blob, limits), Row(blob.file, blob.size), dedup);
      }
    case WriteFile(content, newFile, filename, persistent, dedup) =>
      var file := if content.sha in s.blobs then s.blobs[content.sha].file else newFile;
      AllocateBinds(s.names, ScopeFor(persistent, session), filename, Row(file, content.size), dedup);
    case CopyFile(src, dst, move) => CopyUsage(s, session, c, limits);
    case DeleteFile(name) =>
      var persistent := PERSIST <= name;
      var bare := if persistent then name[|PERSIST|..] else name;
      UsageSubset(s.names, DeletedKeys(s.names, ScopeFor(persistent, session), bare));
  }

  lemma CopyUsage(s: Store, session: string, c: Command, limits: Limits)
    requires c.CopyFile?
    ensures var after := Exec(s, session, c, limits).0;
            Usage(after.names) <= Usage(s.names)
            || (!c.move && (limits.ceiling.Some? ==> Usage(after.names) <= limits.ceiling.value))
  {
    var src, dst := SplitStashName(c.src), SplitStashName(c.dst);
    if src.Some? && dst.Some? {
      var from, to := (ScopeFor(src.value.persistent, session), src.value.bare),
                      (ScopeFor(dst.value.persistent, session), dst.value.bare);
      if from in s.names && from != to {
        var row := s.names[from];
        AllocateBinds(s.names, to.0, to.1, row, AppendCount);
        var (names, outcome) := Allocate(s.names, to.0, to.1, row, AppendCount);
        if c.move && outcome.Saved? { UsageRemove(names, from); }
      }
    }
  }

  /** The quota law over whole runs: with a ceiling, usage at or under it stays there;
      usage already above it never grows. */
  lemma {:induction false} QuotaHoldsInEveryRun(s: Store, commands: seq<(string, Command)>, limits: Limits)
    requires limits.ceiling.Some?
    ensures var bound := if Usage(s.names) <= limits.ceiling.value then limits.ceiling.value else Usage(s.names);
            Usage(Run(s, commands, limits).names) <= bound
    decreases |commands|
  {
    if commands != [] {
      var init, last := commands[..|commands| - 1], commands[|commands| - 1];
      QuotaHoldsInEveryRun(s, init, limits);
      CommandRespectsQuota(Run(s, init, limits), last.0, last.1, limits);
    }
  }

  ghost predicate Named(names: Names, file: FileId) {
    exists k :: k in names && names[k].file == file
  }

  /** A move never raises usage, and never drops the last name of its blob or of any other. */
  lemma MoveKeepsEveryBlobNamed(s: Store, session: string, c: Command, limits: Limits, file: FileId)
    requires c.CopyFile? && Named(s.names, file)
    ensures c.move ==> Usage(Exec(s, session, c, limits).0.names) <= Usage(s.names)
    ensures Named(Exec(s, session, c, limits).0.names, file)
  {
    CopyUsage(s, session, c, limits);
    var after := Exec(s, session, c, limits).0.names;
    var k :| k in s.names && s.names[k].file == file;
    var src, dst := SplitStashName(c.src), SplitStashName(c.dst);
    if src.Some? && dst.Some? {
      var from, to := (ScopeFor(src.value.persistent, session), src.value.bare),
                      (ScopeFor(dst.value.persistent, session), dst.value.bare);
      if from in s.names && from != to {
        AllocateBinds(s.names, to.0, to.1, s.names[from], AppendCount);
        var (names, outcome) := Allocate(s.names, to.0, to.1, s.names[from], AppendCount);
        if outcome.Saved? && Exec(s, session, c, limits).1.SavedAs? {
          var saved := (to.0, outcome.name);
          assert saved in after && after[saved].file == s.names[from].file;
          if k != from && k != saved {
            assert k in names by { assert k in names - {saved}; }
            assert names[k] == s.names[k] by { assert (names - {saved})[k] == (s.names - {saved})[k]; }
          }
        }
      }
    }
    if k in after && after[k].file == file { assert Named(after, file); }
  }

  /** A delete removes exactly the names of its scope that its pattern stands for, leaves
      every other row as it was, and answers their number. */
  lemma DeleteRemovesExactly(s: Store, session: string, name: string, limits: Limits, key: Key)
    requires Exec(s, session, DeleteFile(name), limits).1.Deleted?
    ensures var (after, reply) := Exec(s, session, DeleteFile(name), limits);
            var persistent := PERSIST <= name;
            var pattern := if persistent then name[|PERSIST|..] else name;
            && (key in after.names <==>
                  key in s.names && !(key.0 == ScopeFor(persistent, session) && GlobMatch(pattern, key.1)))
            && (key in after.names ==> after.names[key] == s.names[key])
            && reply.count == |s.names.Keys| - |after.names.Keys|
            && after.blobs == s.blobs
  {
    var persistent := PERSIST <= name;
    var pattern := if persistent then name[|PERSIST|..] else name;
    var gone := DeletedKeys(s.names, ScopeFor(persistent, session), pattern);
    if '*' in pattern { GlobMeansGlob(pattern, key.1); } else { GlobLiteral(pattern, key.1); }
    assert (s.names - gone).Keys == s.names.Keys - gone && gone <= s.names.Keys;
  }

  /** What a successful command answered can be fetched again: the name parses, and
      resolves in the session's scopes to the blob that was stored, written or copied. */
  lemma SavedNameResolves(s: Store, session: string, c: Command, limits: Limits)
    requires !c.DeleteFile? && Exec(s, session, c, limits).1.SavedAs?
    ensures var (after, reply) := Exec(s, session, c, limits);
            var parsed := SplitStashName(reply.name);
            && parsed.Some?
            && (ScopeFor(parsed.value.persistent, session), parsed.value.bare) in after.names
            && var file := after.names[(ScopeFor(parsed.value.persistent, session), parsed.value.bare)].file;
            match c
            case StoreFile(sha, _, _, _) => sha in s.blobs && file == s.blobs[sha].file
            case WriteFile(content, _, _, _, _) => content.sha in after.blobs && file == after.blobs[content.sha].file
            case CopyFile(src, _, _) =>
              var from := SplitStashName(src);
              && from.Some? && (ScopeFor(from.value.persistent, session), from.value.bare) in s.names
              && file == s.names[(ScopeFor(from.value.persistent, session), from.value.bare)].file
  {
    match c
    case StoreFile(sha, filename, persistent, dedup) =>
      var blob := s.blobs[sha];
      SavedParses(s.names, ScopeFor(persistent, session), persistent, ChosenName(filename, blob, limits), Row(blob.file, blob.size), dedup);
    case WriteFile(content, newFile, filename, persistent, dedup) =>
      var file := if content.sha in s.blobs then s.blobs[content.sha].file else newFile;
      SavedParses(s.names, ScopeFor(persistent, session), persistent, filename, Row(file, content.size), dedup);
    case CopyFile(src, dst, move) => CopyResolves(s, session, c, limits);
  }

  lemma SavedParses(names: Names, scope: string, persistent: bool, name: string, row: Row, dedup: Dedup)
    requires ValidBare(name)
    ensures var (after, outcome) := Allocate(names, scope, name, row, dedup);
            outcome.Saved? ==>
              && SplitStashName(DisplayName(persistent, outcome.name)) == Some(Parsed(persistent, outcome.name))
              && (scope, outcome.name) in after && after[(scope, outcome.name)].file == row.file
  {
    AllocateBinds(names, scope, name, row, dedup);
    var outcome := Allocate(names, scope, name, row, dedup).1;
    if outcome.Saved? { DisplayRoundTrip(persistent, outcome.name, ""); }
  }

  lemma CopyResolves(s: Store, session: string, c: Command, limits: Limits)
    requires c.CopyFile? && Exec(s, session, c, limits).1.SavedAs?
    ensures var (after, reply) := Exec(s, session, c, limits);
            var parsed, from := SplitStashName(reply.name), SplitStashName(c.src);
            && parsed.Some? && from.Some?
            && (ScopeFor(parsed.value.persistent, session), parsed.value.bare) in after.names
            && (ScopeFor(from.value.persistent, session), from.value.bare) in s.names
            && after.names[(ScopeFor(parsed.value.persistent, session), parsed.value.bare)].file
               == s.names[(ScopeFor(from.value.persistent, session), from.value.bare)].file
  {
    var src, dst := SplitStashName(c.src).value, SplitStashName(c.dst).value;
    var from, to := (ScopeFor(src.persistent, session), src.bare), (ScopeFor(dst.persistent, session), dst.bare);
    DisplayRoundTrip(dst.persistent, dst.bare, c.dst);
    SavedParses(s.names, to.0, dst.persistent, to.1, s.names[from], AppendCount);
    AllocateBinds(s.names, to.0, to.1, s.names[from], AppendCount);
  }

  // ------------------------------------------------------------ the frame handlers

  /** The router's handlers for one user's session, one command at a time. */
  class Handlers {
    const dir: Directory
    const session: string
    const limits: Limits
    var blobs: map<string, Blob>

    constructor (dir: Directory, session: string, limits: Limits)
      ensures this.dir == dir && this.session == session && this.limits == limits && blobs == map[]
    {
      this.dir, this.session, this.limits, blobs := dir, session, limits, map[];
    }

    function Now(): Store
      reads this, dir
    {
      Store(dir.names, blobs)
    }

    /** _quota_ok: a non-positive addition passes without a look at the directory. */
    method CheckQuota(added: int) returns (ok: bool)
      ensures ok == QuotaOk(dir.names, added, limits.ceiling)
      ensures !ok <==> added > 0 && limits.ceiling.Some? && Usage(dir.names) + added > limits.ceiling.value
    {
      if added <= 0 { return true; }
      if limits.ceiling.None? { return true; }
      var usage := dir.CountBytes();
      ok := usage + added <= limits.ceiling.value;
    }

    method HandleStore(sha: string, asked: Option<string>, persistent: bool, dedup: Dedup) returns (reply: Reply)
      modifies dir
      ensures (Now(), reply) == Exec(old(Now()), session, StoreFile(sha, asked, persistent, dedup), limits)
    {
      if sha !in blobs { return Failed(NotFound); }
      var blob := blobs[sha];
      var name := ChosenName(asked, blob, limits);
      if !ValidBare(name) { return Failed(InvalidFilename); }
      var scope := ScopeFor(persistent, session);
      var idempotent := (scope, name) in dir.names && dir.names[(scope, name)].file == blob.file;
      var ok := CheckQuota(if idempotent then 0 else blob.size);
      if !ok { return Failed(QuotaExceeded); }
      var outcome, _, _ := dir.AllocateName(scope, name, Row(blob.file, blob.size), dedup, true);
      if outcome.FilenameExists? { return Failed(NameTaken); }
      reply := SavedAs(DisplayName(persistent, outcome.name));
    }

    method HandleWrite(content: Content, newFile: FileId, filename: string, persistent: bool, dedup: Dedup) returns (reply: Reply)
      modifies this`blobs, dir
      ensures (Now(), reply) == Exec(old(Now()), session, WriteFile(content, newFile, filename, persistent, dedup), limits)
    {
      if !ValidBare(filename) { return Failed(InvalidFilename); }
      if content.size > limits.maxUpload { return Failed(TooLarge); }
      var scope := ScopeFor(persistent, session);
      var known := content.sha in blobs;
      var idempotent := known && (scope, filename) in dir.names && dir.names[(scope, filename)].file == blobs[content.sha].file;
      var ok := CheckQuota(if idempotent then 0 else content.size);
      if !ok { return Failed(QuotaExceeded); }
      if !known {
        blobs := blobs[content.sha := Blob(newFile, content.size, Some(filename))];
      }
      assert blobs == blobs[content.sha := blobs[content.sha]];
      var outcome, _, _ := dir.AllocateName(scope, filename, Row(blobs[content.sha].file, content.size), dedup, true);
      if outcome.FilenameExists? { return Failed(NameTaken); }
      reply := SavedAs(DisplayName(persistent, outcome.name));
    }

    /** The copy onto itself returns before anything could delete the source. */
    method HandleCopy(src: string, dst: string, move: bool) returns (reply: Reply)
      modifies dir
      ensures (Now(), reply) == Exec(old(Now()), session, CopyFile(src, dst, move), limits)
    {
      var s, d := SplitStashName(src), SplitStashName(dst);
      if s.None? || d.None? { return Failed(InvalidFilename); }
      var from := (ScopeFor(s.value.persistent, session), s.value.bare);
      var to := (ScopeFor(d.value.persistent, session), d.value.bare);
      if from !in dir.names { return Failed(NotFound); }
      var row := dir.names[from];
      if from == to { return SavedAs(DisplayName(d.value.persistent, d.value.bare)); }
      if !move {
        var idempotent := to in dir.names && dir.names[to].file == row.file;
        var ok := CheckQuota(if idempotent then 0 else row.size);
        if !ok { return Failed(QuotaExceeded); }
      }
      ghost var before := dir.names;
      AllocateCases(before, to.0, to.1, row, AppendCount);
      var outcome, _, _ := dir.AllocateName(to.0, to.1, row, AppendCount, true);
      if outcome.FilenameExists? { return Failed(NameTaken); }
      if move {
        dir.names := dir.names - {from};
      }
      reply := SavedAs(DisplayName(d.value.persistent, outcome.name));
    }
  }
}
