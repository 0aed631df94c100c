/** The parent tree: acyclic, single-user, never deeper than the configured cap, and
    walked completely by the bounded descendant query. */
module TaskTree {
  import opened Options
  import opened TaskStates
  import opened TaskTable
  import opened TaskHistory

  ghost predicate ParentOk(rows: map<TaskId, Row>, t: TaskId)
    requires t in rows
  {
    && rows[t].born < |rows|
    && (rows[t].parent.Some? ==>
          var p := rows[t].parent.value;
          p in rows && rows[p].born < rows[t].born && rows[p].user == rows[t].user)
  }

  ghost predicate Rooted(rows: map<TaskId, Row>) {
    forall t :: t in rows ==> ParentOk(rows, t)
  }

  /** The unbounded length of a task's ancestor chain, itself included. */
  ghost function Depth(rows: map<TaskId, Row>, t: TaskId): (depth: nat)
    requires Rooted(rows) && t in rows
    ensures depth >= 1
    decreases rows[t].born
  {
    assert ParentOk(rows, t);
    1 + if rows[t].parent.None? then 0 else Depth(rows, rows[t].parent.value)
  }

  /** `t` is a strict ancestor of `x`. */
  ghost predicate IsBelow(rows: map<TaskId, Row>, x: TaskId, t: TaskId)
    requires Rooted(rows) && x in rows
    decreases rows[x].born
  {
    assert ParentOk(rows, x);
    rows[x].parent.Some? && (rows[x].parent.value == t || IsBelow(rows, rows[x].parent.value, t))
  }

  /** An admission whose parent depth was read holds that depth, or names a parent that
      did not exist for its user. */
  ghost predicate MeasureOk(s: State, a: Admission)
    requires Rooted(s.rows)
  {
    a.Measured? && a.spawn.parent.Some? && a.spawn.parent.value in s.rows
      && s.rows[a.spawn.parent.value].user == a.spawn.user
    ==> a.depth == Depth(s.rows, a.spawn.parent.value) && a.depth < s.limits.maxDepth
  }

  ghost predicate TreeInv(s: State) {
    && LegalLimits(s.limits)
    && Rooted(s.rows)
    && (forall t :: t in s.rows ==> Depth(s.rows, t) <= s.limits.maxDepth)
    && (forall id :: id in s.admissions ==> MeasureOk(s, s.admissions[id]))
  }

  /** Rows keep their place in the tree when columns other than the parent change and
      when rows are added. */
  ghost predicate SamePlaces(rows: map<TaskId, Row>, rows': map<TaskId, Row>) {
    forall t :: t in rows ==>
      t in rows' && rows'[t].parent == rows[t].parent && rows'[t].born == rows[t].born
      && rows'[t].user == rows[t].user
  }

  lemma {:induction false} DepthStable(rows: map<TaskId, Row>, rows': map<TaskId, Row>, t: TaskId)
    requires Rooted(rows) && Rooted(rows') && SamePlaces(rows, rows') && t in rows
    ensures Depth(rows', t) == Depth(rows, t)
    decreases rows[t].born
  {
    assert ParentOk(rows, t);
    if rows[t].parent.Some? {
      DepthStable(rows, rows', rows[t].parent.value);
    }
  }

  /** The bounded query is exact wherever the true depth is within its bound. */
  lemma {:induction false} ChainDepthExact(rows: map<TaskId, Row>, t: TaskId, budget: nat)
    requires Rooted(rows) && t in rows
    ensures ChainDepth(rows, rows[t].user, t, budget) ==
            if Depth(rows, t) <= budget then Depth(rows, t) else budget
    decreases budget
  {
    assert ParentOk(rows, t);
    if budget > 0 && rows[t].parent.Some? {
      ChainDepthExact(rows, rows[t].parent.value, budget - 1);
    }
  }

  /** A step that creates no row and accepts no depth. */
  ghost predicate Planted(s: State, s': State) {
    && s'.limits == s.limits && s'.rows.Keys == s.rows.Keys && SamePlaces(s.rows, s'.rows)
    && forall id :: id in s'.admissions && s'.admissions[id].Measured? ==>
         id in s.admissions && s'.admissions[id] == s.admissions[id]
  }

  lemma PlantedKeepsTree(s: State, s': State)
    requires TreeInv(s) && Planted(s, s')
    ensures TreeInv(s')
  {
    assert |s'.rows| == |s'.rows.Keys| == |s.rows|;
    forall t | t in s'.rows ensures ParentOk(s'.rows, t) { assert ParentOk(s.rows, t); }
    forall t | t in s'.rows ensures Depth(s'.rows, t) <= s'.limits.maxDepth { DepthStable(s.rows, s'.rows, t); }
    forall id | id in s'.admissions ensures MeasureOk(s', s'.admissions[id]) {
      var a := s'.admissions[id];
      if a.Measured? && a.spawn.parent.Some? && a.spawn.parent.value in s.rows {
        assert MeasureOk(s, a);
        DepthStable(s.rows, s'.rows, a.spawn.parent.value);
      }
    }
  }

  lemma MeasureKeepsTree(s: State, id: RequestId)
    requires TreeInv(s)
    ensures TreeInv(Measure(s, id))
  {
    if id in s.admissions && s.admissions[id].Missed? {
      var spawn := s.admissions[id].spawn;
      if spawn.parent.Some? && spawn.parent.value in s.rows && s.rows[spawn.parent.value].user == spawn.user {
        ChainDepthExact(s.rows, spawn.parent.value, MAX_TREE);
      }
      var s' := Measure(s, id);
      forall k | k in s'.admissions ensures MeasureOk(s', s'.admissions[k]) {
        if k != id { assert MeasureOk(s, s.admissions[k]); }
      }
    }
  }

  lemma RowAddedRooted(s: State, id: RequestId, t: TaskId)
    requires Rooted(s.rows) && id in s.admissions && s.admissions[id].Measured?
    requires FreshId(s, t) && t in Insert(s, id, t).rows
    ensures var s', spawn := Insert(s, id, t), s.admissions[id].spawn;
            && Rooted(s'.rows) && SamePlaces(s.rows, s'.rows) && s'.limits == s.limits
            && s'.rows.Keys == s.rows.Keys + {t} && s'.rows[t].parent == spawn.parent
            && s'.admissions == s.admissions[id := Created(spawn, t)]
            && (spawn.parent.Some? ==> spawn.parent.value in s.rows && s.rows[spawn.parent.value].user == spawn.user)
  {
    var s' := Insert(s, id, t);
    var spawn := s.admissions[id].spawn;
    assert s'.rows.Keys == s.rows.Keys + {t};
    assert |s'.rows.Keys| == |s.rows.Keys| + 1;
    forall u | u in s'.rows ensures ParentOk(s'.rows, u) {
      if u != t { assert ParentOk(s.rows, u); }
      else if spawn.parent.Some? { assert ParentOk(s.rows, spawn.parent.value); }
    }
  }

  lemma RowAddedDepth(s: State, id: RequestId, t: TaskId)
    requires TreeInv(s) && id in s.admissions && s.admissions[id].Measured?
    requires FreshId(s, t) && t in Insert(s, id, t).rows && Rooted(Insert(s, id, t).rows)
    ensures Depth(Insert(s, id, t).rows, t) <= s.limits.maxDepth
  {
    RowAddedRooted(s, id, t);
    var spawn := s.admissions[id].spawn;
    if spawn.parent.Some? {
      assert MeasureOk(s, s.admissions[id]);
      DepthStable(s.rows, Insert(s, id, t).rows, spawn.parent.value);
    }
  }

  lemma RowAddedKeepsTree(s: State, id: RequestId, t: TaskId)
    requires TreeInv(s) && id in s.admissions && s.admissions[id].Measured?
    requires FreshId(s, t) && t in Insert(s, id, t).rows
    ensures TreeInv(Insert(s, id, t))
  {
    var s' := Insert(s, id, t);
    RowAddedRooted(s, id, t);
    forall u | u in s'.rows ensures Depth(s'.rows, u) <= s'.limits.maxDepth {
      if u != t {
        DepthStable(s.rows, s'.rows, u);
      } else {
        RowAddedDepth(s, id, t);
      }
    }
    forall k | k in s'.admissions ensures MeasureOk(s', s'.admissions[k]) {
      var a := s'.admissions[k];
      if a.Measured? && a.spawn.parent.Some? && a.spawn.parent.value in s'.rows {
        assert k != id && a == s.admissions[k];
        assert a.spawn.parent != Some(t);
        assert MeasureOk(s, a);
        DepthStable(s.rows, s'.rows, a.spawn.parent.value);
      }
    }
  }

  lemma InsertKeepsTree(s: State, id: RequestId, t: TaskId)
    requires TreeInv(s)
    ensures TreeInv(Insert(s, id, t))
  {
    var s' := Insert(s, id, t);
    if s'.rows == s.rows {
      PlantedKeepsTree(s, s');
    } else {
      RowAddedKeepsTree(s, id, t);
    }
  }

  lemma AnswerPlanted(s: State, id: RequestId, outcome: AckOutcome, error: Blob)
    ensures Planted(s, Answer(s, id, outcome, error))
  {
    AnswerEvolves(s, id, outcome, error);
  }

  lemma RowStepPlanted(s: State, step: Step)
    requires step.SResult? || step.SCancel? || step.SFail? || step.SForceFail? || step.SFlip?
    ensures Planted(s, Apply(s, step))
  {
    StepEvolves(s, step);
    assert Apply(s, step).admissions == s.admissions;
    assert Apply(s, step).rows.Keys == s.rows.Keys;
  }

  lemma OtherStepPlanted(s: State, step: Step)
    requires step.SArrive? || step.SRetry? || step.SAsk? || step.SGiveUp? || step.SDeny?
    ensures Planted(s, Apply(s, step))
  {
    assert Apply(s, step).rows == s.rows;
  }

  lemma StepKeepsTree(s: State, step: Step)
    requires TreeInv(s)
    ensures TreeInv(Apply(s, step))
  {
    if step.SMeasure? {
      MeasureKeepsTree(s, step.id);
    } else if step.SInsert? {
      InsertKeepsTree(s, step.id, step.task);
    } else {
      if step.SAnswer? {
        AnswerPlanted(s, step.id, step.outcome, step.failure);
      } else if step.SArrive? || step.SRetry? || step.SAsk? || step.SGiveUp? || step.SDeny? {
        OtherStepPlanted(s, step);
      } else {
        RowStepPlanted(s, step);
      }
      PlantedKeepsTree(s, Apply(s, step));
    }
  }

  /** In every run: each parent was created before its child and belongs to the same
      user, and no ancestor chain is longer than spawn_max_depth, although a parent's
      depth is read in another transaction than the insert. */
  lemma {:induction false} TreeInEveryRun(limits: Limits, steps: seq<Step>)
    requires LegalLimits(limits)
    ensures TreeInv(Run(Start(limits), steps))
    decreases |steps|
  {
    if steps != [] {
      TreeInEveryRun(limits, steps[..|steps| - 1]);
      StepKeepsTree(Run(Start(limits), steps[..|steps| - 1]), steps[|steps| - 1]);
    }
  }

  /** Ancestors are older, of the same user, and strictly shallower: no task is its own
      ancestor. */
  lemma {:induction false} BelowIsDeeper(rows: map<TaskId, Row>, x: TaskId, t: TaskId)
    requires Rooted(rows) && x in rows && IsBelow(rows, x, t)
    ensures t in rows && rows[t].born < rows[x].born && rows[t].user == rows[x].user
    ensures Depth(rows, t) < Depth(rows, x)
    ensures x != t
    decreases rows[x].born
  {
    assert ParentOk(rows, x);
    if rows[x].parent.value != t {
      BelowIsDeeper(rows, rows[x].parent.value, t);
    }
  }

  /** Ancestry between rows never changes as rows are added or updated. */
  lemma {:induction false} BelowStable(rows: map<TaskId, Row>, rows': map<TaskId, Row>, x: TaskId, t: TaskId)
    requires Rooted(rows) && Rooted(rows') && SamePlaces(rows, rows') && x in rows
    ensures x in rows' && (IsBelow(rows', x, t) <==> IsBelow(rows, x, t))
    decreases rows[x].born
  {
    assert ParentOk(rows, x);
    if rows[x].parent.Some? {
      BelowStable(rows, rows', rows[x].parent.value, t);
    }
  }

  // ------------------------------------------------------ the descendant query

  lemma BelowGrows(rows: map<TaskId, Row>, user: UserId, f: set<TaskId>, small: nat, large: nat)
    requires small <= large
    ensures Below(rows, user, f, small) <= Below(rows, user, f, large)
    decreases large
  {
    if small > 0 {
      BelowGrows(rows, user, Children(rows, user, f), small - 1, large - 1);
    }
  }

  /** One more level of budget reaches the children of everything reached. */
  lemma {:induction false} BelowStep(rows: map<TaskId, Row>, user: UserId, f: set<TaskId>, budget: nat, p: TaskId, x: TaskId)
    requires p in Below(rows, user, f, budget)
    requires x in rows && rows[x].user == user && rows[x].parent == Some(p)
    ensures x in Below(rows, user, f, budget + 1)
    decreases budget
  {
    var next := Children(rows, user, f);
    if p in f {
      assert x in next;
      BelowGrows(rows, user, next, 0, budget);
    } else {
      BelowStep(rows, user, next, budget - 1, p, x);
    }
  }

  lemma {:induction false} BelowFound(rows: map<TaskId, Row>, x: TaskId, t: TaskId)
    requires Rooted(rows) && x in rows && IsBelow(rows, x, t)
    ensures t in rows && Depth(rows, x) > Depth(rows, t)
    ensures x in Below(rows, rows[x].user, Children(rows, rows[x].user, {t}), Depth(rows, x) - Depth(rows, t) - 1)
    decreases rows[x].born
  {
    assert ParentOk(rows, x);
    BelowIsDeeper(rows, x, t);
    var p := rows[x].parent.value;
    if p != t {
      BelowFound(rows, p, t);
      BelowStep(rows, rows[x].user, Children(rows, rows[x].user, {t}), Depth(rows, p) - Depth(rows, t) - 1, p, x);
    }
  }

  lemma {:induction false} BelowSound(rows: map<TaskId, Row>, user: UserId, t: TaskId, f: set<TaskId>, budget: nat, x: TaskId)
    requires Rooted(rows) && x in Below(rows, user, f, budget)
    requires forall y :: y in f ==> y in rows && rows[y].user == user && IsBelow(rows, y, t)
    ensures x in rows && rows[x].user == user && IsBelow(rows, x, t)
    decreases budget
  {
    if x !in f {
      BelowSound(rows, user, t, Children(rows, user, f), budget - 1, x);
    }
  }

  /** In every reachable state the 64-level walk returns exactly the user's strict
      descendants: nothing below the bound is missed. */
  lemma DescendantsExact(limits: Limits, steps: seq<Step>, user: UserId, t: TaskId, x: TaskId)
    requires LegalLimits(limits)
    ensures var rows := Run(Start(limits), steps).rows;
            Rooted(rows) &&
            (x in Descendants(rows, user, t) <==> x in rows && rows[x].user == user && IsBelow(rows, x, t))
  {
    TreeInEveryRun(limits, steps);
    DescendantsExactIn(Run(Start(limits), steps), user, t, x);
  }

  lemma WalkExact(s: State, user: UserId, t: TaskId, x: TaskId, bound: nat)
    requires TreeInv(s) && s.limits.maxDepth <= bound
    ensures x in Below(s.rows, user, Children(s.rows, user, {t}), bound) <==>
            x in s.rows && s.rows[x].user == user && IsBelow(s.rows, x, t)
  {
    var rows, top := s.rows, Children(s.rows, user, {t});
    if x in Below(rows, user, top, bound) {
      BelowSound(rows, user, t, top, bound, x);
    }
    if x in rows && rows[x].user == user && IsBelow(rows, x, t) {
      BelowFound(rows, x, t);
      BelowGrows(rows, user, top, Depth(rows, x) - Depth(rows, t) - 1, bound);
    }
  }

  /** A row that is a descendant later and existed before was a descendant before. */
  lemma DescendantsWereThere(s: State, s': State, user: UserId, t: TaskId, x: TaskId)
    requires TreeInv(s) && TreeInv(s') && Evolves(s, s')
    requires x in s.rows && x in Descendants(s'.rows, user, t)
    ensures x in Descendants(s.rows, user, t)
  {
    DescendantsExactIn(s', user, t, x);
    DescendantsExactIn(s, user, t, x);
    forall u | u in s.rows ensures u in s'.rows && RowEvolves(s.rows[u], s'.rows[u]) {}
    BelowStable(s.rows, s'.rows, x, t);
  }

  lemma DescendantsExactIn(s: State, user: UserId, t: TaskId, x: TaskId)
    requires TreeInv(s)
    ensures x in Descendants(s.rows, user, t) <==>
            x in s.rows && s.rows[x].user == user && IsBelow(s.rows, x, t)
  {
    WalkExact(s, user, t, x, MAX_TREE);
  }
}
