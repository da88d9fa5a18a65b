/** With one claimant at a time, rows of one key run in the order they were enqueued, whatever is
    rate limited, replaced or recovered: the register of a key ends with the value written last. */
module QueueOrder {
  import opened DeliveryTable
  import opened QueueRuns

  /** One claimant at a time, strictly increasing creation times, one priority per key. */
  ghost predicate Disciplined(s: System, step: Step, prio: string -> int) {
    match step
    case Take(_, _) => s.jobs == map[]
    case Put(_, request) => s.lastPut < s.now && (request.key != "" ==> request.priority == prio(request.key))
    case _ => true
  }

  ghost predicate DisciplinedRun(s: System, steps: seq<Step>, prio: string -> int)
    requires Runs(s, steps)
    decreases |steps|
  {
    steps != [] ==> Disciplined(s, steps[0], prio) && DisciplinedRun(Apply(s, steps[0]), steps[1..], prio)
  }

  // ---------------------------------------------------------------- order among the rows

  ghost predicate RowInOrder(s: System, id: RowId, prio: string -> int) {
    id in s.Rows() ==>
      var r := s.Rows()[id];
      r.createdAt <= s.lastPut && (r.key != "" ==> r.priority == prio(r.key)) &&
      (r.status == Claimed ==> r.availableAt <= s.now)
  }

  /** Of two rows of a key, the older one becomes available first, and a claimed one is the oldest. */
  ghost predicate PairInOrder(rows: Rows, i: RowId, j: RowId) {
    i in rows && j in rows ==>
      (i != j ==> rows[i].createdAt != rows[j].createdAt) &&
      (rows[i].key == rows[j].key && rows[i].key != "" && rows[i].Live() && rows[j].status == Queued ==>
         (rows[i].createdAt < rows[j].createdAt ==> rows[i].availableAt <= rows[j].availableAt) &&
         (rows[i].status == Claimed ==> rows[i].createdAt < rows[j].createdAt))
  }

  ghost predicate InOrder(s: System, prio: string -> int) {
    && s.lastPut <= s.now
    && (forall c, d | c in s.jobs && d in s.jobs :: c == d)
    && (forall id :: RowInOrder(s, id, prio))
    && (forall i, j :: PairInOrder(s.Rows(), i, j))
  }

  /** Where nothing is claimed but by jobs, no job means no claimed row. */
  lemma NoJobsNoClaims(s: System)
    requires WellFormed(s) && s.jobs == map[]
    ensures forall id | id in s.Rows() :: s.Rows()[id].status != Claimed
  {
    forall id | id in s.Rows() ensures s.Rows()[id].status != Claimed {
      assert s.Rows()[id].status == Claimed ==> HeldByJob(s, id);
    }
  }

  lemma PutInOrder(s: System, id: RowId, request: Request, prio: string -> int)
    requires WellFormed(s) && InOrder(s, prio) && Enabled(s, Put(id, request)) && Disciplined(s, Put(id, request), prio)
    ensures InOrder(Apply(s, Put(id, request)), prio)
  {
    var t := Apply(s, Put(id, request));
    forall x ensures RowInOrder(t, x, prio) { assert RowInOrder(s, x, prio); }
    forall i, j ensures PairInOrder(t.Rows(), i, j) {
      assert PairInOrder(s.Rows(), i, j) && RowInOrder(s, i, prio) && RowInOrder(s, j, prio);
    }
  }

  /** The claim picks the oldest queued row of its key. */
  lemma TakesOldest(s: System, who: Claimant, id: RowId, prio: string -> int)
    requires InOrder(s, prio) && Enabled(s, Take(who, id)) && s.Rows()[id].key != ""
    ensures forall j | j in s.Rows() && s.Rows()[j].status == Queued && s.Rows()[j].key == s.Rows()[id].key ::
              s.Rows()[id].createdAt <= s.Rows()[j].createdAt
  {
    forall j | j in s.Rows() && s.Rows()[j].status == Queued && s.Rows()[j].key == s.Rows()[id].key
      ensures s.Rows()[id].createdAt <= s.Rows()[j].createdAt
    {
      assert PairInOrder(s.Rows(), j, id) && RowInOrder(s, j, prio) && RowInOrder(s, id, prio);
    }
  }

  lemma TakeInOrder(s: System, who: Claimant, id: RowId, prio: string -> int)
    requires WellFormed(s) && InOrder(s, prio) && Enabled(s, Take(who, id)) && s.jobs == map[]
    ensures InOrder(Apply(s, Take(who, id)), prio)
  {
    var t := Apply(s, Take(who, id));
    NoJobsNoClaims(s);
    if s.Rows()[id].key != "" { TakesOldest(s, who, id, prio); }
    forall x ensures RowInOrder(t, x, prio) { assert RowInOrder(s, x, prio); }
    forall i, j ensures PairInOrder(t.Rows(), i, j) { assert PairInOrder(s.Rows(), i, j); }
  }

  lemma RecordInOrder(s: System, who: Claimant, prio: string -> int)
    requires WellFormed(s) && InOrder(s, prio) && Enabled(s, Record(who))
    ensures InOrder(Apply(s, Record(who)), prio)
  {
    var t := Apply(s, Record(who));
    forall x ensures RowInOrder(t, x, prio) { RecordRow(s, who, prio, x); }
    forall i, j ensures PairInOrder(t.Rows(), i, j) {
      assert PairInOrder(s.Rows(), i, j) && PairInOrder(s.Rows(), j, i);
      RecordPair(s, who, i, j);
    }
  }

  lemma RecordRow(s: System, who: Claimant, prio: string -> int, id: RowId)
    requires WellFormed(s) && Enabled(s, Record(who)) && RowInOrder(s, id, prio)
    ensures RowInOrder(Apply(s, Record(who)), id, prio)
  {
    assert JobFits(s, who);
  }

  lemma RecordPair(s: System, who: Claimant, i: RowId, j: RowId)
    requires WellFormed(s) && Enabled(s, Record(who)) && forall c, d | c in s.jobs && d in s.jobs :: c == d
    requires PairInOrder(s.Rows(), i, j) && PairInOrder(s.Rows(), j, i)
    ensures PairInOrder(Apply(s, Record(who)).Rows(), i, j)
  {
    assert JobFits(s, who);
    var current := s.jobs[who].id;
    if i in s.Rows() { ClaimedOnce(s, i, current); }
    if j in s.Rows() { ClaimedOnce(s, j, current); }
    FinishPair(s.table, current, s.jobs[who].verdict, s.now, i, j);
  }

  lemma FinishPair(t: Table, current: RowId, verdict: Verdict, now: int, i: RowId, j: RowId)
    requires current in t.rows && t.rows[current].status == Claimed
    requires i in t.rows && t.rows[i].status == Claimed ==> i == current
    requires j in t.rows && t.rows[j].status == Claimed ==> j == current
    requires PairInOrder(t.rows, i, j) && PairInOrder(t.rows, j, i)
    ensures PairInOrder(Finish(t, current, verdict, now).rows, i, j)
  {
    match verdict
    case Done(m) =>
    case Unchanged =>
    case Limited(_) =>
    case Refused =>
  }

  lemma OtherInOrder(s: System, step: Step, prio: string -> int)
    requires WellFormed(s) && InOrder(s, prio) && Enabled(s, step)
    requires step.Tick? || step.SkipStale? || step.Call? || step.Drop?
    ensures InOrder(Apply(s, step), prio)
  {
    var t := Apply(s, step);
    if step.SkipStale? { assert JobFits(s, step.who); }
    forall x ensures RowInOrder(t, x, prio) { assert RowInOrder(s, x, prio); }
    forall i, j ensures PairInOrder(t.Rows(), i, j) { assert PairInOrder(s.Rows(), i, j); }
  }

  /** A row that is put back was the oldest of its key, and became available before the others. */
  lemma RestartInOrder(s: System, dead: set<RunId>, prio: string -> int)
    requires WellFormed(s) && InOrder(s, prio)
    ensures InOrder(Apply(s, Restart(dead)), prio)
  {
    var t := Apply(s, Restart(dead));
    forall x ensures RowInOrder(t, x, prio) { assert RowInOrder(s, x, prio); }
    forall i, j ensures PairInOrder(t.Rows(), i, j) {
      assert PairInOrder(s.Rows(), i, j) && PairInOrder(s.Rows(), j, i);
      if i in s.Rows() && j in s.Rows() { ClaimedOnce(s, i, j); }
    }
  }

  /** At most one row is claimed. */
  lemma ClaimedOnce(s: System, i: RowId, j: RowId)
    requires WellFormed(s) && i in s.Rows() && j in s.Rows()
    requires forall c, d | c in s.jobs && d in s.jobs :: c == d
    ensures s.Rows()[i].status == Claimed && s.Rows()[j].status == Claimed ==> i == j
  {
    if s.Rows()[i].status == Claimed && s.Rows()[j].status == Claimed {
      assert HeldByJob(s, i) && HeldByJob(s, j);
    }
  }

  lemma StepInOrder(s: System, step: Step, prio: string -> int)
    requires WellFormed(s) && InOrder(s, prio) && Enabled(s, step) && Disciplined(s, step, prio)
    ensures InOrder(Apply(s, step), prio)
  {
    match step {
      case Put(id, request) => PutInOrder(s, id, request, prio);
      case Take(who, id) => TakeInOrder(s, who, id, prio);
      case Record(who) => RecordInOrder(s, who, prio);
      case Restart(dead) => RestartInOrder(s, dead, prio);
      case _ => OtherInOrder(s, step, prio);
    }
  }

  // ---------------------------------------------------------------- the registers

  /** A row is no newer than the value enqueued last for its key, and if it is that value's row, it
      carries that value. */
  ghost predicate RowVersion(s: System, id: RowId) {
    id in s.Rows() && s.Rows()[id].key != "" ==>
      var r := s.Rows()[id];
      r.key in s.newest && r.createdAt <= s.newest[r.key].createdAt &&
      (r.createdAt == s.newest[r.key].createdAt ==> VersionOf(id, r) == s.newest[r.key]) &&
      (r.Live() && r.key in s.shown ==> s.shown[r.key].createdAt <= r.createdAt)
  }

  ghost predicate KeyVersion(s: System, key: string) {
    && (key in s.newest ==>
          var v := s.newest[key];
          v.createdAt <= s.lastPut && v.id in s.used && 
          (v.id in s.Rows() ==> s.Rows()[v.id].key == key && VersionOf(v.id, s.Rows()[v.id]) == v))
    && (key in s.shown ==>
          key in s.newest && s.shown[key].createdAt <= s.newest[key].createdAt &&
          (s.shown[key].createdAt == s.newest[key].createdAt ==> s.shown[key] == s.newest[key]))
    && (key in s.newest && s.newest[key].id in s.calls ==> key in s.shown && s.shown[key] == s.newest[key])
  }

  ghost predicate Versioned(s: System) {
    && (forall id :: RowVersion(s, id))
    && (forall key :: KeyVersion(s, key))
    && (forall id | id in s.calls :: id in s.used)
    && "" !in s.newest
  }

  /** What identifies a row never changes: key, creation time, priority and content. */
  ghost predicate SameRow(s: System, t: System, id: RowId) {
    id in t.Rows() ==>
      id in s.Rows() && VersionOf(id, s.Rows()[id]) == VersionOf(id, t.Rows()[id]) &&
      s.Rows()[id].key == t.Rows()[id].key && (t.Rows()[id].Live() ==> s.Rows()[id].Live())
  }

  lemma StepKeepsRows(s: System, step: Step, id: RowId)
    requires WellFormed(s) && Enabled(s, step) && !step.Put?
    ensures SameRow(s, Apply(s, step), id)
  {
    match step
    case Record(who) =>
      assert JobFits(s, who);
      FinishKeepsRow(s.table, s.jobs[who].id, s.jobs[who].verdict, s.now, id);
    case SkipStale(who) => assert JobFits(s, who);
    case _ =>
  }

  lemma FinishKeepsRow(t: Table, current: RowId, verdict: Verdict, now: int, id: RowId)
    requires current in t.rows && t.rows[current].status == Claimed
    ensures var u := Finish(t, current, verdict, now);
            id in u.rows ==>
              id in t.rows && VersionOf(id, t.rows[id]) == VersionOf(id, u.rows[id]) && t.rows[id].key == u.rows[id].key &&
              (u.rows[id].Live() ==> t.rows[id].Live())
  {
  }

  lemma PutVersioned(s: System, id: RowId, request: Request, prio: string -> int)
    requires WellFormed(s) && InOrder(s, prio) && Versioned(s)
    requires Enabled(s, Put(id, request)) && Disciplined(s, Put(id, request), prio)
    ensures Versioned(Apply(s, Put(id, request)))
  {
    var t := Apply(s, Put(id, request));
    forall x ensures RowVersion(t, x) {
      assert RowVersion(s, x) && RowInOrder(s, x, prio) && KeyVersion(s, request.key);
    }
    forall key ensures KeyVersion(t, key) { assert KeyVersion(s, key); }
  }

  lemma CallVersioned(s: System, who: Claimant, answer: Answer, prio: string -> int)
    requires WellFormed(s) && InOrder(s, prio) && Versioned(s) && Enabled(s, Call(who, answer))
    ensures Versioned(Apply(s, Call(who, answer)))
  {
    var t := Apply(s, Call(who, answer));
    assert JobFits(s, who);
    forall x ensures RowVersion(t, x) {
      assert RowVersion(s, x) && PairInOrder(s.Rows(), s.jobs[who].id, x);
      if x in s.Rows() { ClaimedOnce(s, s.jobs[who].id, x); }
    }
    forall key ensures KeyVersion(t, key) { CallKeyVersion(s, who, answer, key); }
  }

  lemma CallKeyVersion(s: System, who: Claimant, answer: Answer, key: string)
    requires WellFormed(s) && Versioned(s) && Enabled(s, Call(who, answer))
    ensures KeyVersion(Apply(s, Call(who, answer)), key)
  {
    assert JobFits(s, who) && RowVersion(s, s.jobs[who].id);
    assert KeyVersion(s, key) && KeyVersion(s, s.jobs[who].row.key);
  }

  lemma OtherVersioned(s: System, step: Step)
    requires WellFormed(s) && Versioned(s) && Enabled(s, step) && !step.Put? && !step.Call?
    ensures Versioned(Apply(s, step))
  {
    var t := Apply(s, step);
    forall x ensures RowVersion(t, x) {
      StepKeepsRows(s, step, x);
      assert RowVersion(s, x);
    }
    forall key ensures KeyVersion(t, key) {
      assert KeyVersion(s, key);
      if key in t.newest { StepKeepsRows(s, step, t.newest[key].id); }
    }
  }

  lemma StepVersioned(s: System, step: Step, prio: string -> int)
    requires WellFormed(s) && InOrder(s, prio) && Versioned(s) && Enabled(s, step) && Disciplined(s, step, prio)
    ensures Versioned(Apply(s, step))
  {
    match step {
      case Put(id, request) => PutVersioned(s, id, request, prio);
      case Call(who, answer) => CallVersioned(s, who, answer, prio);
      case _ => OtherVersioned(s, step);
    }
  }

  ghost predicate Orderly(s: System, prio: string -> int) {
    WellFormed(s) && InOrder(s, prio) && Versioned(s)
  }

  lemma {:induction false} RunsOrderly(s: System, steps: seq<Step>, prio: string -> int)
    requires Orderly(s, prio) && Runs(s, steps) && DisciplinedRun(s, steps, prio)
    ensures Orderly(Exec(s, steps), prio)
    decreases |steps|
  {
    if steps != [] {
      StepWellFormed(s, steps[0]);
      StepInOrder(s, steps[0], prio);
      StepVersioned(s, steps[0], prio);
      RunsOrderly(Apply(s, steps[0]), steps[1..], prio);
    }
  }

  /** Last writer wins, over every disciplined run, crashes and recoveries included: as soon as the
      value enqueued last for a key has been delivered by a call, it is the value of the last
      successful call for that key, and it stays so until the next enqueue. */
  lemma LastWriterWins(now: int, steps: seq<Step>, prio: string -> int, key: string)
    requires Runs(Start(now), steps) && DisciplinedRun(Start(now), steps, prio)
    ensures var t := Exec(Start(now), steps);
            key in t.newest && t.newest[key].id in t.calls ==> key in t.shown && t.shown[key] == t.newest[key]
  {
    StartWellFormed(now);
    RunsOrderly(Start(now), steps, prio);
    assert KeyVersion(Exec(Start(now), steps), key);
  }

  /** In every reachable state, a claim picks the oldest queued row of its key. */
  lemma SameKeyRowsRunInOrder(now: int, steps: seq<Step>, prio: string -> int, who: Claimant, id: RowId)
    requires Runs(Start(now), steps) && DisciplinedRun(Start(now), steps, prio)
    requires Enabled(Exec(Start(now), steps), Take(who, id))
    ensures var rows := Exec(Start(now), steps).Rows();
            rows[id].key != "" ==>
              forall j | j in rows && rows[j].status == Queued && rows[j].key == rows[id].key ::
                rows[id].createdAt <= rows[j].createdAt
  {
    StartWellFormed(now);
    RunsOrderly(Start(now), steps, prio);
    var t := Exec(Start(now), steps);
    if t.Rows()[id].key != "" { TakesOldest(t, who, id, prio); }
  }

  // ---------------------------------------------------------------- two claims of a run

  /** A live row of the later state was live before under the same key and creation time, or is
      younger than everything enqueued before. */
  ghost predicate OldOrYounger(s: System, t: System, id: RowId) {
    id in t.Rows() && t.Rows()[id].Live() ==>
      (id in s.Rows() && s.Rows()[id].Live() && s.Rows()[id].key == t.Rows()[id].key &&
       s.Rows()[id].createdAt == t.Rows()[id].createdAt)
      || s.lastPut < t.Rows()[id].createdAt
  }

  lemma StepOldOrYounger(s: System, step: Step, id: RowId, prio: string -> int)
    requires WellFormed(s) && Enabled(s, step) && Disciplined(s, step, prio)
    ensures OldOrYounger(s, Apply(s, step), id) && s.lastPut <= Apply(s, step).lastPut
  {
    if !step.Put? { StepKeepsRows(s, step, id); }
  }

  lemma {:induction false} RunOldOrYounger(s: System, steps: seq<Step>, prio: string -> int, id: RowId)
    requires WellFormed(s) && Runs(s, steps) && DisciplinedRun(s, steps, prio)
    ensures OldOrYounger(s, Exec(s, steps), id) && s.lastPut <= Exec(s, steps).lastPut
    decreases |steps|
  {
    if steps != [] {
      StepWellFormed(s, steps[0]);
      StepOldOrYounger(s, steps[0], id, prio);
      RunOldOrYounger(Apply(s, steps[0]), steps[1..], prio, id);
    }
  }

  /** In every run: of two claims of one key, the earlier one never takes the younger row, whatever
      is enqueued, rate limited, promoted, recovered or cancelled in between. */
  lemma ClaimsFollowCreation(now: int, steps: seq<Step>, more: seq<Step>, prio: string -> int,
                             first: Claimant, i: RowId, second: Claimant, j: RowId)
    requires Runs(Start(now), steps) && DisciplinedRun(Start(now), steps, prio)
    requires var s := Exec(Start(now), steps);
             Enabled(s, Take(first, i)) && Disciplined(s, Take(first, i), prio) && s.Rows()[i].key != ""
    requires var s := Apply(Exec(Start(now), steps), Take(first, i));
             Runs(s, more) && DisciplinedRun(s, more, prio) && Enabled(Exec(s, more), Take(second, j))
    requires var s := Exec(Start(now), steps);
             Exec(Apply(s, Take(first, i)), more).Rows()[j].key == s.Rows()[i].key
    ensures var s := Exec(Start(now), steps);
            s.Rows()[i].createdAt <= Exec(Apply(s, Take(first, i)), more).Rows()[j].createdAt
  {
    StartWellFormed(now);
    RunsOrderly(Start(now), steps, prio);
    var s := Exec(Start(now), steps);
    StepWellFormed(s, Take(first, i));
    RunOldOrYounger(Apply(s, Take(first, i)), more, prio, j);
    TakesOldest(s, first, i, prio);
    NoJobsNoClaims(s);
    assert RowInOrder(s, i, prio);
  }
}
