/** How rows end: which are completed and which failed, and how often their calls failed before. */
module QueueEndings {
  import opened Options
  import opened DeliveryTable
  import opened QueueRuns
  import opened QueueConservation

  datatype Ending = Ending(status: Status, at: int)

  /** How the step ends the row, if it does: a skipped row and one whose call succeeded count as
      completed, one whose call was refused as failed. */
  function EndsAs(s: System, step: Step, id: RowId): Option<Ending>
    requires Enabled(s, step)
  {
    match step
    case SkipStale(who) => if s.jobs[who].id == id then Some(Ending(Completed, s.now)) else None
    case Record(who) =>
      if s.jobs[who].id != id || s.jobs[who].verdict.Limited? then None
      else Some(Ending(if s.jobs[who].verdict.Refused? then Failed else Completed, s.now))
    case _ => None
  }

  /** The first ending along the run. */
  ghost function EndingOf(s: System, steps: seq<Step>, id: RowId): Option<Ending>
    requires Runs(s, steps)
    decreases |steps|
  {
    if steps == [] then None
    else if EndsAs(s, steps[0], id).Some? then EndsAs(s, steps[0], id)
    else EndingOf(Apply(s, steps[0]), steps[1..], id)
  }

  /** The table shows this ending. */
  predicate EndedThus(t: Table, id: RowId, ending: Option<Ending>) {
    match ending
    case None => !EndedIn(t, id)
    case Some(e) => id in t.rows && t.rows[id].status == e.status && t.rows[id].completedAt == Some(e.at)
  }

  lemma StepEnds(s: System, step: Step, id: RowId)
    requires WellFormed(s) && Enabled(s, step) && !EndedIn(s.table, id)
    ensures EndedThus(Apply(s, step).table, id, EndsAs(s, step, id))
  {
    match step {
      case SkipStale(who) => assert JobFits(s, who);
      case Record(who) =>
        assert JobFits(s, who);
        RecordEnds(s.table, s.jobs[who].id, s.jobs[who].verdict, s.now, id);
      case _ =>
    }
  }

  lemma RecordEnds(t: Table, current: RowId, verdict: Verdict, now: int, id: RowId)
    requires current in t.rows && t.rows[current].status == Claimed && !EndedIn(t, id)
    ensures EndedThus(Finish(t, current, verdict, now), id,
                      if id != current || verdict.Limited? then None
                      else Some(Ending(if verdict.Refused? then Failed else Completed, now)))
  {
  }

  /** Over every run, with any number of claimants, crashes and recoveries: the status and the time
      with which a row has ended are those of the step that ended it first, and a row that no step
      ended has not ended. So a refused row is failed, and only a skipped row or one whose successful
      call was recorded is completed. */
  lemma {:induction false} EndedExactly(s: System, steps: seq<Step>, id: RowId)
    requires WellFormed(s) && Runs(s, steps) && !EndedIn(s.table, id)
    ensures EndedThus(Exec(s, steps).table, id, EndingOf(s, steps, id))
    decreases |steps|
  {
    if steps != [] {
      var next := Apply(s, steps[0]);
      StepWellFormed(s, steps[0]);
      StepEnds(s, steps[0], id);
      if EndsAs(s, steps[0], id).Some? {
        NothingLostOrRevived(next, steps[1..], id);
      } else {
        EndedExactly(next, steps[1..], id);
      }
    }
  }

  // ---------------------------------------------------------------- completed rows were delivered

  /** A claimant of the row skipped it. */
  ghost predicate SkippedAlong(s: System, steps: seq<Step>, id: RowId)
    requires Runs(s, steps)
    decreases |steps|
  {
    steps != [] &&
    ((steps[0].SkipStale? && s.jobs[steps[0].who].id == id) || SkippedAlong(Apply(s, steps[0]), steps[1..], id))
  }

  ghost predicate SuccessCalled(s: System, c: Claimant) {
    c in s.jobs && s.jobs[c].Answered? && Succeeded(s.jobs[c].verdict) ==> s.jobs[c].id in s.calls
  }

  ghost predicate SuccessesCalled(s: System) {
    forall c :: SuccessCalled(s, c)
  }

  lemma StepCalls(s: System, step: Step)
    requires Enabled(s, step) && SuccessesCalled(s)
    ensures SuccessesCalled(Apply(s, step)) && forall id | id in s.calls :: id in Apply(s, step).calls
  {
    var t := Apply(s, step);
    forall c ensures SuccessCalled(t, c) { assert SuccessCalled(s, c); }
  }

  lemma {:induction false} RunCalls(s: System, steps: seq<Step>, id: RowId)
    requires Runs(s, steps) && id in s.calls && SuccessesCalled(s)
    ensures id in Exec(s, steps).calls
    decreases |steps|
  {
    if steps != [] {
      StepCalls(s, steps[0]);
      RunCalls(Apply(s, steps[0]), steps[1..], id);
    }
  }

  lemma {:induction false} CompletedWasCalled(s: System, steps: seq<Step>, id: RowId)
    requires Runs(s, steps) && SuccessesCalled(s)
    requires EndingOf(s, steps, id).Some? && EndingOf(s, steps, id).value.status == Completed
    ensures id in Exec(s, steps).calls || SkippedAlong(s, steps, id)
    decreases |steps|
  {
    var step, next := steps[0], Apply(s, steps[0]);
    StepCalls(s, step);
    if EndsAs(s, step, id).None? {
      CompletedWasCalled(next, steps[1..], id);
    } else if step.Record? {
      assert SuccessCalled(s, step.who);
      RunCalls(next, steps[1..], id);
    }
  }

  /** In every run from the empty table, a completed row had a successful call or was skipped as
      stale; so the row whose message a look-up by key finds was delivered, or skipped. */
  lemma NamedRowsWereDelivered(now: int, steps: seq<Step>, id: RowId, key: string)
    requires Runs(Start(now), steps)
    requires var t := Exec(Start(now), steps); id in t.Rows() && (t.Rows()[id].status == Completed || Names(t.Rows()[id], key))
    ensures id in Exec(Start(now), steps).calls || SkippedAlong(Start(now), steps, id)
  {
    StartWellFormed(now);
    EndedExactly(Start(now), steps, id);
    CompletedWasCalled(Start(now), steps, id);
  }

  // ---------------------------------------------------------------- failed calls are counted

  /** The step records a call for the row that did not succeed. */
  function Misses(s: System, step: Step, id: RowId): nat
    requires Enabled(s, step)
  {
    if step.Record? && s.jobs[step.who].id == id && !Succeeded(s.jobs[step.who].verdict) then 1 else 0
  }

  ghost function MissesAlong(s: System, steps: seq<Step>, id: RowId): nat
    requires Runs(s, steps)
    decreases |steps|
  {
    if steps == [] then 0 else Misses(s, steps[0], id) + MissesAlong(Apply(s, steps[0]), steps[1..], id)
  }

  function AttemptsOf(t: Table, id: RowId): nat {
    if id in t.rows then t.rows[id].attempts else 0
  }

  lemma StepAttempts(s: System, step: Step, id: RowId)
    requires WellFormed(s) && Enabled(s, step) && id in Apply(s, step).Rows()
    ensures AttemptsOf(Apply(s, step).table, id) == AttemptsOf(s.table, id) + Misses(s, step, id)
  {
    match step {
      case Record(who) =>
        assert JobFits(s, who);
        RecordAttempts(s.table, s.jobs[who].id, s.jobs[who].verdict, s.now, id);
      case _ =>
    }
  }

  lemma RecordAttempts(t: Table, current: RowId, verdict: Verdict, now: int, id: RowId)
    requires current in t.rows && id in t.rows
    ensures id in Finish(t, current, verdict, now).rows
    ensures AttemptsOf(Finish(t, current, verdict, now), id) ==
            AttemptsOf(t, id) + if id == current && !Succeeded(verdict) then 1 else 0
  {
  }

  lemma StepStaysGone(s: System, step: Step, id: RowId)
    requires WellFormed(s) && Enabled(s, step) && id in s.used && id !in s.Rows()
    ensures id in Apply(s, step).used && id !in Apply(s, step).Rows()
  {
  }

  lemma {:induction false} GoneStaysGone(s: System, steps: seq<Step>, id: RowId)
    requires WellFormed(s) && Runs(s, steps) && id in s.used && id !in s.Rows()
    ensures id !in Exec(s, steps).Rows()
    decreases |steps|
  {
    if steps != [] {
      StepWellFormed(s, steps[0]);
      StepStaysGone(s, steps[0], id);
      GoneStaysGone(Apply(s, steps[0]), steps[1..], id);
    }
  }

  /** Over every run: the attempts on record for a row are exactly its calls that were recorded as
      rate limited or refused. */
  lemma {:induction false} AttemptsCountMisses(s: System, steps: seq<Step>, id: RowId)
    requires WellFormed(s) && Runs(s, steps) && id in Exec(s, steps).Rows()
    ensures AttemptsOf(Exec(s, steps).table, id) == AttemptsOf(s.table, id) + MissesAlong(s, steps, id)
    decreases |steps|
  {
    if steps != [] {
      var next := Apply(s, steps[0]);
      StepWellFormed(s, steps[0]);
      if id in next.Rows() {
        StepAttempts(s, steps[0], id);
      } else if id in s.Rows() {
        GoneStaysGone(next, steps[1..], id);
      }
      AttemptsCountMisses(next, steps[1..], id);
    }
  }

  // ---------------------------------------------------------------- what a call comes to

  /** The remote service did what was asked, or found that nothing had to be done. */
  predicate NothingLeftToDo(op: OpType, answer: Answer) {
    answer.Result? || (op == EditMessage && answer.notModified) || (op == DeleteMessage && answer.notFound)
  }

  /** A call succeeds exactly if nothing is left to do; otherwise the row waits exactly if the error says
      how long, and is refused if it does not. A success brings a message id only from a result. */
  lemma JudgedExactly(op: OpType, answer: Answer)
    ensures Succeeded(Judge(op, answer)) <==> NothingLeftToDo(op, answer)
    ensures Judge(op, answer).Limited? <==> !NothingLeftToDo(op, answer) && answer.retryAfter.Some?
    ensures Judge(op, answer).Limited? ==> Some(Judge(op, answer).retryAfter) == answer.retryAfter
    ensures Judge(op, answer).Done? <==> answer.Result?
    ensures Judge(op, answer).Done? ==> Judge(op, answer).messageId == answer.messageId
  {
  }

  /** Over every run: the look-up by key finds a row that ended last among the rows of the key that name
      a message; of those that ended together, the one created last. */
  lemma LookUpFindsLastEnded(now: int, steps: seq<Step>, key: string, id: RowId, other: RowId)
    requires Runs(Start(now), steps)
    requires var rows := Exec(Start(now), steps).Rows(); IsLatestRow(rows, key, id) && other in rows && Names(rows[other], key)
    ensures var rows := Exec(Start(now), steps).Rows();
            var mine, its := EndingOf(Start(now), steps, id), EndingOf(Start(now), steps, other);
            mine.Some? && its.Some? && its.value.at <= mine.value.at &&
            (its.value.at == mine.value.at ==> rows[other].createdAt <= rows[id].createdAt)
  {
    StartWellFormed(now);
    EndedExactly(Start(now), steps, id);
    EndedExactly(Start(now), steps, other);
    assert LaterOrSame(Exec(Start(now), steps).Rows()[id], Exec(Start(now), steps).Rows()[other]);
  }

  // ---------------------------------------------------------------- what was asked for stays

  /** The row asks for the same as before, except that a send may have become an edit of a message. */
  predicate AsksTheSame(r: Row, t: Row) {
    && t.key == r.key && t.priority == r.priority && t.createdAt == r.createdAt && t.payload.content == r.payload.content
    && ((t.op == r.op && t.payload.target == r.payload.target) ||
        (r.op == SendMessage && t.op == EditMessage && t.payload.target.Some?))
  }

  lemma StepAsksTheSame(s: System, step: Step, id: RowId)
    requires WellFormed(s) && Enabled(s, step) && id in s.Rows() && id in Apply(s, step).Rows()
    ensures AsksTheSame(s.Rows()[id], Apply(s, step).Rows()[id])
  {
    match step {
      case Record(who) => RecordAsksTheSame(s.table, s.jobs[who].id, s.jobs[who].verdict, s.now, id);
      case _ =>
    }
  }

  lemma RecordAsksTheSame(t: Table, current: RowId, verdict: Verdict, now: int, id: RowId)
    requires current in t.rows && id in t.rows
    ensures id in Finish(t, current, verdict, now).rows && AsksTheSame(t.rows[id], Finish(t, current, verdict, now).rows[id])
  {
  }

  /** Over every run: as long as a row is in the table it asks for what was enqueued, in its order; only
      a send may become an edit, never an edit or a deletion something else. */
  lemma {:induction false} RowsAskTheSame(s: System, steps: seq<Step>, id: RowId)
    requires WellFormed(s) && Runs(s, steps) && id in s.Rows() && id in Exec(s, steps).Rows()
    ensures AsksTheSame(s.Rows()[id], Exec(s, steps).Rows()[id])
    decreases |steps|
  {
    if steps != [] {
      var next := Apply(s, steps[0]);
      StepWellFormed(s, steps[0]);
      if id in next.Rows() {
        StepAsksTheSame(s, steps[0], id);
        RowsAskTheSame(next, steps[1..], id);
      } else {
        GoneStaysGone(next, steps[1..], id);
      }
    }
  }
}
