/** No queued work is lost, repeated or revived. */
module QueueConservation {
  import opened DeliveryTable
  import opened QueueRuns
  import opened Sets

  predicate LiveIn(t: Table, id: RowId) {
    id in t.rows && t.rows[id].Live()
  }

  predicate EndedIn(t: Table, id: RowId) {
    id in t.rows && !t.rows[id].Live()
  }

  /** The claimant that holds the row ends it in this step. */
  predicate EndedByClaimant(s: System, step: Step, id: RowId) {
    match step
    case SkipStale(who) => who in s.jobs && s.jobs[who].id == id
    case Record(who) => who in s.jobs && s.jobs[who].id == id && s.jobs[who].Answered? && !s.jobs[who].verdict.Limited?
    case _ => false
  }

  /** A queued row is deleted: replaced by a newer row of its key, or cancelled. */
  predicate Deleted(s: System, step: Step, id: RowId) {
    id in s.Rows() && s.Rows()[id].status == Queued &&
    match step
    case Put(_, request) => request.key != "" && request.key == s.Rows()[id].key
    case Drop(ids) => id in ids
    case _ => false
  }

  /** Completed and failed rows never change again and never leave the table. */
  lemma EndedStaysEnded(s: System, step: Step, id: RowId)
    requires WellFormed(s) && Enabled(s, step) && EndedIn(s.table, id)
    ensures EndedIn(Apply(s, step).table, id) && Apply(s, step).Rows()[id] == s.Rows()[id]
  {
    match step {
      case SkipStale(who) => assert JobFits(s, who);
      case Record(who) =>
        assert JobFits(s, who);
        FinishTouches(s.table, s.jobs[who].id, s.jobs[who].verdict, s.now);
      case _ =>
    }
  }

  /** A live row stays live, or its claimant ends it, or it is deleted while queued; and each of
      these happens exactly under the conditions above. */
  lemma HowRowsLeave(s: System, step: Step, id: RowId)
    requires WellFormed(s) && Enabled(s, step) && LiveIn(s.table, id)
    ensures var t := Apply(s, step).table;
            if EndedByClaimant(s, step, id) then EndedIn(t, id)
            else if Deleted(s, step, id) then id !in t.rows
            else LiveIn(t, id)
  {
    match step {
      case SkipStale(who) => assert JobFits(s, who);
      case Record(who) =>
        assert JobFits(s, who);
        RecordAndLife(s.table, s.jobs[who].id, s.jobs[who].verdict, s.now, id);
      case _ =>
    }
  }

  lemma RecordAndLife(t: Table, current: RowId, verdict: Verdict, now: int, id: RowId)
    requires current in t.rows && id in t.rows && t.rows[id].Live()
    ensures var u := Finish(t, current, verdict, now);
            id in u.rows && (u.rows[id].Live() <==> id != current || verdict.Limited?)
  {
  }

  /** Along any run: what has ended stays as it is, and what was live and is gone was deleted by a
      step of the run, or has ended. */
  lemma {:induction false} NothingLostOrRevived(s: System, steps: seq<Step>, id: RowId)
    requires WellFormed(s) && Runs(s, steps)
    ensures var t := Exec(s, steps);
            WellFormed(t) &&
            (EndedIn(s.table, id) ==> id in t.Rows() && t.Rows()[id] == s.Rows()[id]) &&
            (LiveIn(s.table, id) ==> id in t.Rows() || DeletedAlong(s, steps, id))
    decreases |steps|
  {
    if steps != [] {
      var next := Apply(s, steps[0]);
      StepWellFormed(s, steps[0]);
      NothingLostOrRevived(next, steps[1..], id);
      if EndedIn(s.table, id) { EndedStaysEnded(s, steps[0], id); }
      if LiveIn(s.table, id) { HowRowsLeave(s, steps[0], id); }
    }
  }

  ghost predicate DeletedAlong(s: System, steps: seq<Step>, id: RowId)
    requires Runs(s, steps)
    decreases |steps|
  {
    steps != [] && (Deleted(s, steps[0], id) || DeletedAlong(Apply(s, steps[0]), steps[1..], id))
  }

  // ---------------------------------------------------------------- how often a row is called

  ghost predicate AnsweredWell(s: System, id: RowId) {
    exists c :: c in s.jobs && s.jobs[c].id == id && s.jobs[c].Answered? && Succeeded(s.jobs[c].verdict)
  }

  /** The row may have had a successful call since it was last put into the queue. */
  ghost predicate Spent(s: System, id: RowId) {
    EndedIn(s.table, id) || AnsweredWell(s, id)
  }

  ghost predicate CallsWithin(s: System, id: RowId) {
    s.calls[id] <= s.recoveries[id] + (if Spent(s, id) then 1 else 0) && (id !in s.used ==> s.calls[id] == 0)
  }

  ghost predicate CallsCounted(s: System) {
    forall id :: CallsWithin(s, id)
  }

  /** Nobody but the row's own claimant answers for it. */
  lemma OnlyClaimantAnswers(s: System, who: Claimant)
    requires WellFormed(s) && who in s.jobs && AnsweredWell(s, s.jobs[who].id)
    ensures s.jobs[who].Answered? && Succeeded(s.jobs[who].verdict)
  {
    var id := s.jobs[who].id;
    var c :| c in s.jobs && s.jobs[c].id == id && s.jobs[c].Answered? && Succeeded(s.jobs[c].verdict);
    assert JobsDiffer(s, c, who);
  }

  lemma AnswersKept(s: System, t: System, id: RowId)
    requires AnsweredWell(s, id) && forall c | c in s.jobs && s.jobs[c].id == id :: c in t.jobs && t.jobs[c] == s.jobs[c]
    ensures AnsweredWell(t, id)
  {
    var c :| c in s.jobs && s.jobs[c].id == id && s.jobs[c].Answered? && Succeeded(s.jobs[c].verdict);
    assert t.jobs[c] == s.jobs[c];
  }

  lemma CallCounted(s: System, who: Claimant, answer: Answer)
    requires WellFormed(s) && Enabled(s, Call(who, answer)) && CallsCounted(s)
    ensures CallsCounted(Apply(s, Call(who, answer)))
  {
    var t := Apply(s, Call(who, answer));
    var id := s.jobs[who].id;
    forall j ensures CallsWithin(t, j) {
      assert CallsWithin(s, j) && JobFits(s, who);
      if j == id {
        if AnsweredWell(s, id) { OnlyClaimantAnswers(s, who); assert false; }
        if Succeeded(t.jobs[who].verdict) { assert AnsweredWell(t, id); }
      } else if AnsweredWell(s, j) {
        AnswersKept(s, t, j);
      }
    }
  }

  lemma RecordCounted(s: System, who: Claimant)
    requires WellFormed(s) && Enabled(s, Record(who)) && CallsCounted(s)
    ensures CallsCounted(Apply(s, Record(who)))
  {
    var t := Apply(s, Record(who));
    var id := s.jobs[who].id;
    assert JobFits(s, who);
    FinishTouches(s.table, id, s.jobs[who].verdict, s.now);
    forall j ensures CallsWithin(t, j) {
      assert CallsWithin(s, j);
      if j == id {
        RecordAndLife(s.table, id, s.jobs[who].verdict, s.now, id);
        if AnsweredWell(s, id) { OnlyClaimantAnswers(s, who); }
      } else if AnsweredWell(s, j) {
        AnswersKept(s, t, j);
      }
    }
  }

  lemma SkipCounted(s: System, who: Claimant)
    requires WellFormed(s) && Enabled(s, SkipStale(who)) && CallsCounted(s)
    ensures CallsCounted(Apply(s, SkipStale(who)))
  {
    var t := Apply(s, SkipStale(who));
    assert JobFits(s, who);
    forall j ensures CallsWithin(t, j) {
      assert CallsWithin(s, j);
      if j != s.jobs[who].id && AnsweredWell(s, j) { AnswersKept(s, t, j); }
    }
  }

  lemma RestartCounted(s: System, dead: set<RunId>)
    requires WellFormed(s) && CallsCounted(s)
    ensures CallsCounted(Apply(s, Restart(dead)))
  {
    var t := Apply(s, Restart(dead));
    forall j ensures CallsWithin(t, j) {
      assert CallsWithin(s, j);
      if AnsweredWell(s, j) && j !in OrphanIds(s.Rows(), dead) {
        var c :| c in s.jobs && s.jobs[c].id == j && s.jobs[c].Answered? && Succeeded(s.jobs[c].verdict);
        assert JobFits(s, c);
        assert c in t.jobs && t.jobs[c] == s.jobs[c];
      }
    }
  }

  lemma OtherCounted(s: System, step: Step)
    requires WellFormed(s) && Enabled(s, step) && CallsCounted(s)
    requires step.Tick? || step.Put? || step.Take? || step.Drop?
    ensures CallsCounted(Apply(s, step))
  {
    var t := Apply(s, step);
    forall j ensures CallsWithin(t, j) {
      assert CallsWithin(s, j);
      if AnsweredWell(s, j) { AnswersKept(s, t, j); }
      if EndedIn(s.table, j) { EndedStaysEnded(s, step, j); }
    }
  }

  lemma StepCounted(s: System, step: Step)
    requires WellFormed(s) && Enabled(s, step) && CallsCounted(s)
    ensures CallsCounted(Apply(s, step))
  {
    match step {
      case Call(who, answer) => CallCounted(s, who, answer);
      case Record(who) => RecordCounted(s, who);
      case SkipStale(who) => SkipCounted(s, who);
      case Restart(dead) => RestartCounted(s, dead);
      case _ => OtherCounted(s, step);
    }
  }

  /** In every run a row is called successfully at most once more than it was recovered, so exactly
      once at most when nothing crashes. */
  lemma {:induction false} CalledAtMostOncePerRecovery(s: System, steps: seq<Step>)
    requires WellFormed(s) && CallsCounted(s) && Runs(s, steps)
    ensures CallsCounted(Exec(s, steps))
    ensures forall id :: Exec(s, steps).calls[id] <= 1 + Exec(s, steps).recoveries[id]
    decreases |steps|
  {
    if steps != [] {
      StepWellFormed(s, steps[0]);
      StepCounted(s, steps[0]);
      CalledAtMostOncePerRecovery(Apply(s, steps[0]), steps[1..]);
    } else {
      forall id ensures s.calls[id] <= 1 + s.recoveries[id] { assert CallsWithin(s, id); }
    }
  }

  // ---------------------------------------------------------------- how many live rows a key has

  function LiveOf(rows: Rows, key: string): set<RowId> {
    set id | id in rows && rows[id].key == key && rows[id].Live()
  }

  lemma StepKeepsLiveBound(s: System, step: Step, key: string, limit: nat)
    requires WellFormed(s) && Enabled(s, step) && key != ""
    requires |ClaimedIn(s.Rows())| <= limit && |LiveOf(s.Rows(), key)| <= limit + 1
    ensures |LiveOf(Apply(s, step).Rows(), key)| <= limit + 1
  {
    var before, after := LiveOf(s.Rows(), key), LiveOf(Apply(s, step).Rows(), key);
    if step.Put? && step.request.key == key {
      var claimed := ClaimedIn(s.Rows());
      assert after <= claimed + {step.id};
      SubsetSize(after, claimed + {step.id});
    } else {
      forall id | id in after ensures id in before { LivedBefore(s, step, key, id); }
      SubsetSize(after, before);
    }
  }

  lemma LivedBefore(s: System, step: Step, key: string, id: RowId)
    requires WellFormed(s) && Enabled(s, step) && !(step.Put? && step.request.key == key)
    requires id in LiveOf(Apply(s, step).Rows(), key)
    ensures id in LiveOf(s.Rows(), key)
  {
    if id in s.Rows() && !s.Rows()[id].Live() { EndedStaysEnded(s, step, id); }
    if step.Record? { assert JobFits(s, step.who); }
    if step.SkipStale? { assert JobFits(s, step.who); }
  }

  /** Along the run at most `limit` rows are claimed at a time. */
  ghost predicate ClaimsWithin(s: System, steps: seq<Step>, limit: nat)
    requires Runs(s, steps)
    decreases |steps|
  {
    |ClaimedIn(s.Rows())| <= limit && (steps != [] ==> ClaimsWithin(Apply(s, steps[0]), steps[1..], limit))
  }

  /** Replacement keeps the queue short: a key never has more than one live row above the number
      of rows that may be claimed at a time. */
  lemma {:induction false} LiveRowsPerKey(s: System, steps: seq<Step>, key: string, limit: nat)
    requires WellFormed(s) && Runs(s, steps) && key != "" && ClaimsWithin(s, steps, limit)
    requires |LiveOf(s.Rows(), key)| <= limit + 1
    ensures |LiveOf(Exec(s, steps).Rows(), key)| <= limit + 1
    decreases |steps|
  {
    if steps != [] {
      StepWellFormed(s, steps[0]);
      StepKeepsLiveBound(s, steps[0], key, limit);
      LiveRowsPerKey(Apply(s, steps[0]), steps[1..], key, limit);
    }
  }
}
