/** With one claimant and no crash, each key owns at most one remote message, and that message ends
    up showing what was enqueued last. */
module QueueRegister {
  import opened Options
  import opened DeliveryTable
  import opened QueueRuns
  import opened QueueOrder

  /** The producer looks the key's message up and enqueues in one step: an edit of that message,
      or a send when there is none. */
  ghost predicate LooksUp(rows: Rows, request: Request) {
    && IsLatestMessage(rows, request.key, request.messageId)
    && request.payload.target == request.messageId
    && request.op == (if request.messageId.Some? then EditMessage else SendMessage)
  }

  /** What the remote service can answer: a send creates a message with a new id, an edit succeeds
      only on an existing message and returns no other id, and `not modified` means that the
      message already shows the content. */
  predicate CanAnswer(remote: map<int, Message>, row: Row, answer: Answer) {
    if CreatesMessage(row.op) then
      answer.Result? ==> answer.messageId.Some? && answer.messageId.value !in remote
    else if row.op == EditMessage then
      (answer.Result? || answer.notModified ==>
         row.payload.target.Some? && row.payload.target.value in remote) &&
      (answer.Result? ==> answer.messageId.None? || answer.messageId == row.payload.target) &&
      (answer.Error? && answer.notModified ==> remote[row.payload.target.value].content == row.payload.content)
    else true
  }

  /** Rows of other keys leave the messages of the tracked keys alone. */
  predicate Foreign(remote: map<int, Message>, row: Row, tracked: set<string>) {
    (row.key !in tracked && (row.op == EditMessage || row.op == DeleteMessage) && row.payload.target.Some? &&
     row.payload.target.value in remote)
    ==> remote[row.payload.target.value].key !in tracked
  }

  ghost predicate Faithful(s: System, step: Step, tracked: set<string>) {
    match step
    case Put(_, request) => request.key in tracked ==> LooksUp(s.Rows(), request)
    case Call(who, answer) =>
      who in s.jobs ==> CanAnswer(s.remote, s.jobs[who].row, answer) && Foreign(s.remote, s.jobs[who].row, tracked)
    case Restart(_) => false
    case _ => true
  }

  ghost predicate FaithfulRun(s: System, steps: seq<Step>, tracked: set<string>)
    requires Runs(s, steps)
    decreases |steps|
  {
    steps != [] ==> Faithful(s, steps[0], tracked) && FaithfulRun(Apply(s, steps[0]), steps[1..], tracked)
  }

  // ---------------------------------------------------------------- the invariant

  /** The key's only message is its home, and it shows the last delivered value. */
  ghost predicate MessageHome(s: System, key: string) {
    && (forall m | m in s.remote && s.remote[m].key == key :: key in s.home && s.home[key] == m)
    && (key in s.home ==>
          s.home[key] in s.remote && key in s.shown && s.remote[s.home[key]] == Message(key, s.shown[key].content))
    && (key in s.shown ==> key in s.home)
  }

  /** A row of a tracked key is a send that names no message unless it made it, or an edit of home. */
  ghost predicate RowAtHome(home: map<string, int>, r: Row) {
    if r.op == SendMessage then
      r.payload.target.None? && (r.messageId.Some? ==> r.status == Completed && r.key in home && r.messageId.value == home[r.key])
    else r.op == EditMessage && r.key in home && r.messageId == Some(home[r.key]) && r.payload.target == r.messageId
  }

  ghost predicate RowHome(s: System, id: RowId, tracked: set<string>) {
    id in s.Rows() && s.Rows()[id].key in tracked ==> RowAtHome(s.home, s.Rows()[id])
  }

  predicate DoneJob(job: Job) {
    job.Answered? && job.verdict.Done?
  }

  /** The message id a successful answer carries is home. */
  ghost predicate JobHome(s: System, c: Claimant, tracked: set<string>) {
    c in s.jobs && DoneJob(s.jobs[c]) && s.jobs[c].row.key in tracked ==>
      var job := s.jobs[c];
      job.row.key in s.home &&
      (job.verdict.messageId == Some(s.home[job.row.key]) ||
       (job.row.op == EditMessage && job.verdict.messageId.None?))
  }

  ghost predicate InFlight(s: System, key: string) {
    exists c :: c in s.jobs && DoneJob(s.jobs[c]) && s.jobs[c].row.op == SendMessage && s.jobs[c].row.key == key
  }

  ghost predicate NamedIn(rows: Rows, key: string) {
    exists id :: id in rows && Names(rows[id], key)
  }

  ghost predicate LiveSend(r: Row, key: string) {
    r.key == key && r.Live() && r.op == SendMessage
  }

  ghost predicate NoLiveSend(rows: Rows, key: string) {
    forall id | id in rows :: !LiveSend(rows[id], key)
  }

  /** Once the key's message exists, either the claimant still has to record it, or it is recorded
      and no live row of the key is a send. */
  ghost predicate Stage(s: System, key: string) {
    key in s.home ==>
      (InFlight(s, key) && !NamedIn(s.Rows(), key)) || (NamedIn(s.Rows(), key) && NoLiveSend(s.Rows(), key))
  }

  ghost predicate AtHome(s: System, tracked: set<string>) {
    && (forall key | key in tracked :: MessageHome(s, key))
    && (forall id :: RowHome(s, id, tracked))
    && (forall c :: JobHome(s, c, tracked))
    && (forall key | key in tracked :: Stage(s, key))
    && "" !in tracked
  }

  /** A claimed send of a key without recorded message, held by the only claimant: no home yet. */
  lemma HeldSendHasNoHome(s: System, who: Claimant, tracked: set<string>, prio: string -> int)
    requires WellFormed(s) && InOrder(s, prio) && AtHome(s, tracked) && who in s.jobs && s.jobs[who].Holding?
    requires s.jobs[who].row.key in tracked && s.jobs[who].row.op == SendMessage
    ensures s.jobs[who].row.key !in s.home
  {
    assert JobFits(s, who) && Stage(s, s.jobs[who].row.key);
    assert LiveSend(s.Rows()[s.jobs[who].id], s.jobs[who].row.key);
  }

  lemma NoFlightWhileHolding(s: System, who: Claimant, key: string, prio: string -> int)
    requires InOrder(s, prio) && who in s.jobs && s.jobs[who].Holding?
    ensures !InFlight(s, key)
  {
  }

  // ---------------------------------------------------------------- enqueue

  lemma PutKeepsNames(s: System, id: RowId, request: Request, key: string)
    requires WellFormed(s) && Enabled(s, Put(id, request))
    ensures NamedIn(s.Rows(), key) ==> NamedIn(Apply(s, Put(id, request)).Rows(), key)
  {
    if NamedIn(s.Rows(), key) {
      var j :| j in s.Rows() && Names(s.Rows()[j], key);
      assert Names(Apply(s, Put(id, request)).Rows()[j], key);
    }
  }

  /** What the look-up finds is home. */
  lemma LookUpFindsHome(s: System, request: Request, tracked: set<string>)
    requires AtHome(s, tracked) && request.key in tracked && LooksUp(s.Rows(), request)
    ensures request.messageId.Some? ==> request.key in s.home && request.messageId == Some(s.home[request.key])
    ensures request.messageId.None? ==> !NamedIn(s.Rows(), request.key)
  {
    if request.messageId.Some? {
      var id :| IsLatestRow(s.Rows(), request.key, id) && s.Rows()[id].messageId == request.messageId;
      assert RowHome(s, id, tracked);
    }
  }

  lemma PutAtHome(s: System, id: RowId, request: Request, tracked: set<string>)
    requires WellFormed(s) && AtHome(s, tracked) && Enabled(s, Put(id, request)) && Faithful(s, Put(id, request), tracked)
    ensures AtHome(Apply(s, Put(id, request)), tracked)
  {
    var t := Apply(s, Put(id, request));
    if request.key in tracked { LookUpFindsHome(s, request, tracked); }
    forall key | key in tracked ensures MessageHome(t, key) { assert MessageHome(s, key); }
    forall x ensures RowHome(t, x, tracked) { assert RowHome(s, x, tracked); }
    forall c ensures JobHome(t, c, tracked) { assert JobHome(s, c, tracked); }
    forall key | key in tracked ensures Stage(t, key) {
      assert Stage(s, key);
      PutKeepsNames(s, id, request, key);
      if InFlight(s, key) { assert InFlight(t, key); }
    }
  }

  // ---------------------------------------------------------------- the remote call

  /** The remote messages of a tracked key change only by its own rows' calls. */
  lemma CallMessageHome(s: System, who: Claimant, answer: Answer, tracked: set<string>, prio: string -> int, key: string)
    requires WellFormed(s) && InOrder(s, prio) && AtHome(s, tracked) && key in tracked
    requires Enabled(s, Call(who, answer)) && Faithful(s, Call(who, answer), tracked)
    ensures MessageHome(Apply(s, Call(who, answer)), key)
  {
    if s.jobs[who].row.key == key {
      OwnCallMessageHome(s, who, answer, tracked, prio);
    } else {
      OtherCallMessageHome(s, who, answer, tracked, key);
    }
  }

  lemma OtherCallMessageHome(s: System, who: Claimant, answer: Answer, tracked: set<string>, key: string)
    requires WellFormed(s) && AtHome(s, tracked) && key in tracked
    requires Enabled(s, Call(who, answer)) && Faithful(s, Call(who, answer), tracked) && s.jobs[who].row.key != key
    ensures MessageHome(Apply(s, Call(who, answer)), key)
  {
    var row := s.jobs[who].row;
    assert JobFits(s, who) && RowHome(s, s.jobs[who].id, tracked) && MessageHome(s, key);
    if row.key in tracked { assert MessageHome(s, row.key); }
    OtherRemoteKept(s.remote, row, answer, key);
  }

  /** A call for another key leaves the messages of this key as they are. */
  lemma OtherRemoteKept(remote: map<int, Message>, row: Row, answer: Answer, key: string)
    requires row.key != key && CanAnswer(remote, row, answer)
    requires (row.op == EditMessage || row.op == DeleteMessage) && row.payload.target.Some? && row.payload.target.value in remote ==>
               remote[row.payload.target.value].key != key
    ensures var t := RemoteAfter(remote, row, answer);
            (forall m | m in t && t[m].key == key :: m in remote && remote[m] == t[m]) &&
            (forall m | m in remote && remote[m].key == key :: m in t && t[m] == remote[m])
  {
  }

  lemma OwnCallMessageHome(s: System, who: Claimant, answer: Answer, tracked: set<string>, prio: string -> int)
    requires WellFormed(s) && InOrder(s, prio) && AtHome(s, tracked)
    requires Enabled(s, Call(who, answer)) && Faithful(s, Call(who, answer), tracked) && s.jobs[who].row.key in tracked
    ensures MessageHome(Apply(s, Call(who, answer)), s.jobs[who].row.key)
  {
    var row := s.jobs[who].row;
    assert JobFits(s, who) && RowHome(s, s.jobs[who].id, tracked) && MessageHome(s, row.key);
    if row.op == SendMessage { HeldSendHasNoHome(s, who, tracked, prio); }
  }

  lemma CallRowHome(s: System, who: Claimant, answer: Answer, tracked: set<string>, prio: string -> int, id: RowId)
    requires WellFormed(s) && InOrder(s, prio) && AtHome(s, tracked)
    requires Enabled(s, Call(who, answer)) && Faithful(s, Call(who, answer), tracked)
    ensures RowHome(Apply(s, Call(who, answer)), id, tracked)
  {
    assert JobFits(s, who) && RowHome(s, id, tracked) && RowHome(s, s.jobs[who].id, tracked);
    var row := s.jobs[who].row;
    if row.key in tracked && row.op == SendMessage { HeldSendHasNoHome(s, who, tracked, prio); }
  }

  lemma CallStage(s: System, who: Claimant, answer: Answer, tracked: set<string>, prio: string -> int, key: string)
    requires WellFormed(s) && InOrder(s, prio) && AtHome(s, tracked) && key in tracked
    requires Enabled(s, Call(who, answer)) && Faithful(s, Call(who, answer), tracked)
    ensures Stage(Apply(s, Call(who, answer)), key)
  {
    var t := Apply(s, Call(who, answer));
    assert JobFits(s, who) && Stage(s, key);
    NoFlightWhileHolding(s, who, key, prio);
    if key in t.home && key !in s.home {
      assert DoneJob(t.jobs[who]) && InFlight(t, key);
      forall j | j in s.Rows() ensures !Names(s.Rows()[j], key) { assert RowHome(s, j, tracked); }
    }
  }

  lemma CallAtHome(s: System, who: Claimant, answer: Answer, tracked: set<string>, prio: string -> int)
    requires WellFormed(s) && InOrder(s, prio) && AtHome(s, tracked)
    requires Enabled(s, Call(who, answer)) && Faithful(s, Call(who, answer), tracked)
    ensures AtHome(Apply(s, Call(who, answer)), tracked)
  {
    var t := Apply(s, Call(who, answer));
    assert JobFits(s, who) && RowHome(s, s.jobs[who].id, tracked);
    forall key | key in tracked ensures MessageHome(t, key) { CallMessageHome(s, who, answer, tracked, prio, key); }
    forall x ensures RowHome(t, x, tracked) { CallRowHome(s, who, answer, tracked, prio, x); }
    forall c ensures JobHome(t, c, tracked) { assert JobHome(s, c, tracked); }
    forall key | key in tracked ensures Stage(t, key) { CallStage(s, who, answer, tracked, prio, key); }
  }

  // ---------------------------------------------------------------- recording

  lemma RecordRowHome(s: System, who: Claimant, tracked: set<string>, id: RowId)
    requires WellFormed(s) && AtHome(s, tracked) && Enabled(s, Record(who))
    ensures RowHome(Apply(s, Record(who)), id, tracked)
  {
    assert JobFits(s, who) && RowHome(s, id, tracked) && JobHome(s, who, tracked);
    FinishRowHome(s.table, s.jobs[who].id, s.jobs[who].verdict, s.now, id, s.home, tracked);
  }

  lemma FinishRowHome(t: Table, current: RowId, verdict: Verdict, now: int, id: RowId, home: map<string, int>, tracked: set<string>)
    requires current in t.rows && id in t.rows ==> t.rows[id].key in tracked ==> RowAtHome(home, t.rows[id])
    requires current in t.rows && t.rows[current].status == Claimed
    requires var r := t.rows[current];
             verdict.Done? && r.key in tracked ==>
               r.key in home && (verdict.messageId == Some(home[r.key]) || (r.op == EditMessage && verdict.messageId.None?))
    ensures var u := Finish(t, current, verdict, now);
            id in u.rows && u.rows[id].key in tracked ==> RowAtHome(home, u.rows[id])
  {
    match verdict
    case Done(m) =>
    case Unchanged =>
    case Limited(_) =>
    case Refused =>
  }

  /** Recording a finished send names the message and turns every queued send into an edit. */
  lemma RecordSendStage(s: System, who: Claimant, tracked: set<string>, prio: string -> int, key: string)
    requires WellFormed(s) && InOrder(s, prio) && AtHome(s, tracked) && Enabled(s, Record(who))
    requires key in tracked && s.jobs[who].row.key == key && s.jobs[who].row.op == SendMessage && s.jobs[who].verdict.Done?
    ensures Stage(Apply(s, Record(who)), key)
  {
    var t := Apply(s, Record(who));
    var id := s.jobs[who].id;
    assert JobFits(s, who) && JobHome(s, who, tracked);
    assert Names(t.Rows()[id], key);
    forall x | x in t.Rows() ensures !LiveSend(t.Rows()[x], key) { ClaimedOnce(s, x, id); }
  }

  lemma RecordOtherStage(s: System, who: Claimant, tracked: set<string>, prio: string -> int, key: string)
    requires WellFormed(s) && InOrder(s, prio) && AtHome(s, tracked) && Enabled(s, Record(who)) && key in tracked
    requires !(s.jobs[who].row.key == key && s.jobs[who].row.op == SendMessage && s.jobs[who].verdict.Done?)
    ensures Stage(Apply(s, Record(who)), key)
  {
    var t := Apply(s, Record(who));
    assert JobFits(s, who) && Stage(s, key);
    if key in t.home {
      assert !InFlight(s, key);
      var j :| j in s.Rows() && Names(s.Rows()[j], key);
      FinishTouches(s.table, s.jobs[who].id, s.jobs[who].verdict, s.now);
      assert Names(t.Rows()[j], key);
      forall x | x in t.Rows() ensures !LiveSend(t.Rows()[x], key) {
        assert !LiveSend(s.Rows()[x], key);
        FinishMakesNoSend(s.table, s.jobs[who].id, s.jobs[who].verdict, s.now, x, key);
      }
    }
  }

  lemma FinishMakesNoSend(t: Table, current: RowId, verdict: Verdict, now: int, id: RowId, key: string)
    requires current in t.rows && id in t.rows && t.rows[current].status == Claimed && !LiveSend(t.rows[id], key)
    ensures !LiveSend(Finish(t, current, verdict, now).rows[id], key)
  {
  }

  lemma RecordAtHome(s: System, who: Claimant, tracked: set<string>, prio: string -> int)
    requires WellFormed(s) && InOrder(s, prio) && AtHome(s, tracked) && Enabled(s, Record(who))
    ensures AtHome(Apply(s, Record(who)), tracked)
  {
    var t := Apply(s, Record(who));
    forall key | key in tracked ensures MessageHome(t, key) { assert MessageHome(s, key); }
    forall x ensures RowHome(t, x, tracked) { RecordRowHome(s, who, tracked, x); }
    forall c ensures JobHome(t, c, tracked) { assert JobHome(s, c, tracked); }
    forall key | key in tracked ensures Stage(t, key) {
      if s.jobs[who].row.key == key && s.jobs[who].row.op == SendMessage && s.jobs[who].verdict.Done? {
        RecordSendStage(s, who, tracked, prio, key);
      } else {
        RecordOtherStage(s, who, tracked, prio, key);
      }
    }
  }

  // ---------------------------------------------------------------- the other steps

  lemma OtherAtHome(s: System, step: Step, tracked: set<string>, prio: string -> int)
    requires WellFormed(s) && InOrder(s, prio) && AtHome(s, tracked) && Enabled(s, step) && Disciplined(s, step, prio)
    requires step.Tick? || step.Take? || step.SkipStale? || step.Drop?
    ensures AtHome(Apply(s, step), tracked)
  {
    var t := Apply(s, step);
    if step.SkipStale? { assert JobFits(s, step.who); }
    forall key | key in tracked ensures MessageHome(t, key) { assert MessageHome(s, key); }
    forall x ensures RowHome(t, x, tracked) { assert RowHome(s, x, tracked); }
    forall c ensures JobHome(t, c, tracked) { assert JobHome(s, c, tracked); }
    forall key | key in tracked ensures Stage(t, key) { OtherStage(s, step, tracked, prio, key); }
  }

  lemma OtherStage(s: System, step: Step, tracked: set<string>, prio: string -> int, key: string)
    requires WellFormed(s) && InOrder(s, prio) && AtHome(s, tracked) && Enabled(s, step) && Disciplined(s, step, prio)
    requires step.Tick? || step.Take? || step.SkipStale? || step.Drop?
    requires key in tracked
    ensures Stage(Apply(s, step), key)
  {
    var t := Apply(s, step);
    if step.SkipStale? { assert JobFits(s, step.who); }
    assert Stage(s, key);
    if InFlight(s, key) {
      var c :| c in s.jobs && DoneJob(s.jobs[c]) && s.jobs[c].row.op == SendMessage && s.jobs[c].row.key == key;
      assert c in t.jobs && DoneJob(t.jobs[c]);
    } else if key in s.home {
      var j :| j in s.Rows() && Names(s.Rows()[j], key);
      assert Names(t.Rows()[j], key);
      forall x | x in t.Rows() ensures !LiveSend(t.Rows()[x], key) { assert !LiveSend(s.Rows()[x], key); }
    }
  }

  lemma StepAtHome(s: System, step: Step, tracked: set<string>, prio: string -> int)
    requires WellFormed(s) && InOrder(s, prio) && AtHome(s, tracked)
    requires Enabled(s, step) && Disciplined(s, step, prio) && Faithful(s, step, tracked)
    ensures AtHome(Apply(s, step), tracked)
  {
    match step {
      case Put(id, request) => PutAtHome(s, id, request, tracked);
      case Call(who, answer) => CallAtHome(s, who, answer, tracked, prio);
      case Record(who) => RecordAtHome(s, who, tracked, prio);
      case _ => OtherAtHome(s, step, tracked, prio);
    }
  }

  lemma {:induction false} RunsAtHome(s: System, steps: seq<Step>, tracked: set<string>, prio: string -> int)
    requires Orderly(s, prio) && AtHome(s, tracked)
    requires Runs(s, steps) && DisciplinedRun(s, steps, prio) && FaithfulRun(s, steps, tracked)
    ensures Orderly(Exec(s, steps), prio) && AtHome(Exec(s, steps), tracked)
    decreases |steps|
  {
    if steps != [] {
      StepWellFormed(s, steps[0]);
      StepInOrder(s, steps[0], prio);
      StepVersioned(s, steps[0], prio);
      StepAtHome(s, steps[0], tracked, prio);
      RunsAtHome(Apply(s, steps[0]), steps[1..], tracked, prio);
    }
  }

  // ---------------------------------------------------------------- main results

  /** At most one message is ever made for a tracked key; and once a completed row names it, no
      queued or claimed row of the key is a send, and each is an edit of that message. */
  lemma OneSendPerKey(now: int, steps: seq<Step>, tracked: set<string>, prio: string -> int, key: string)
    requires "" !in tracked && key in tracked
    requires Runs(Start(now), steps) && DisciplinedRun(Start(now), steps, prio) && FaithfulRun(Start(now), steps, tracked)
    ensures var t := Exec(Start(now), steps);
            (forall m, n | m in t.remote && n in t.remote && t.remote[m].key == key && t.remote[n].key == key :: m == n) &&
            (NamedIn(t.Rows(), key) ==>
               NoLiveSend(t.Rows(), key) && key in t.home &&
               forall id | id in t.Rows() && t.Rows()[id].key == key && t.Rows()[id].Live() ::
                 t.Rows()[id].op == EditMessage && t.Rows()[id].payload.target == Some(t.home[key]))
  {
    StartWellFormed(now);
    RunsAtHome(Start(now), steps, tracked, prio);
    var t := Exec(Start(now), steps);
    assert MessageHome(t, key) && Stage(t, key);
    if NamedIn(t.Rows(), key) {
      var j :| j in t.Rows() && Names(t.Rows()[j], key);
      assert RowHome(t, j, tracked);
      forall id | id in t.Rows() && t.Rows()[id].key == key && t.Rows()[id].Live()
        ensures t.Rows()[id].op == EditMessage && t.Rows()[id].payload.target == Some(t.home[key])
      {
        assert RowHome(t, id, tracked) && !LiveSend(t.Rows()[id], key);
      }
    }
  }

  /** The queue refines a last-writer-wins register per key: once the row enqueued last for a key
      has been delivered by a call, exactly one remote message belongs to the key, and it shows
      exactly that row's text and parse mode. */
  lemma RemoteShowsNewest(now: int, steps: seq<Step>, tracked: set<string>, prio: string -> int, key: string)
    requires "" !in tracked && key in tracked
    requires Runs(Start(now), steps) && DisciplinedRun(Start(now), steps, prio) && FaithfulRun(Start(now), steps, tracked)
    ensures var t := Exec(Start(now), steps);
            key in t.newest && t.newest[key].id in t.calls ==>
              key in t.home && t.home[key] in t.remote &&
              t.remote[t.home[key]] == Message(key, t.newest[key].content) &&
              forall m | m in t.remote && t.remote[m].key == key :: m == t.home[key]
  {
    StartWellFormed(now);
    RunsAtHome(Start(now), steps, tracked, prio);
    var t := Exec(Start(now), steps);
    assert MessageHome(t, key) && KeyVersion(t, key);
  }
}
