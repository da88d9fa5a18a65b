/** The delivery queue in operation: producers, claimants, the remote service, crashes and
    recovery, as interleaved steps. A step is one transaction, or one remote call. */
module QueueRuns {
  import opened Options
  import opened DeliveryTable

  /** Who claims rows: a thread of a run of the service. */
  datatype Claimant = Claimant(run: RunId, slot: nat)

  /** What a claimant is doing with the row it read: about to call, or about to record. */
  datatype Job = Holding(id: RowId, row: Row) | Answered(id: RowId, row: Row, verdict: Verdict)

  /** A message that the remote service shows, and the key of the row whose send created it. */
  datatype Message = Message(key: string, content: Content)

  /** A value of a key's register, with the row that wrote it. */
  datatype Version = Version(id: RowId, createdAt: int, content: Content)

  datatype System = System(
    table: Table,
    jobs: map<Claimant, Job>,
    remote: map<int, Message>,
    now: int,
    // History: row ids ever used, the last creation time, the successful calls and the recoveries
    // of each row, rate limits since the last success.
    used: set<RowId>,
    lastPut: int,
    calls: multiset<RowId>,
    recoveries: multiset<RowId>,
    limits: nat,
    // Registers per key: the value enqueued last, the value of the last successful call, and the
    // message that the first successful send created.
    newest: map<string, Version>,
    shown: map<string, Version>,
    home: map<string, int>)
  {
    function Rows(): Rows { table.rows }
  }

  datatype Step =
    | Tick(elapsed: nat)
    | Put(id: RowId, request: Request)
    | Take(who: Claimant, id: RowId)
    | SkipStale(who: Claimant)
    | Call(who: Claimant, answer: Answer)
    | Record(who: Claimant)
    | Restart(dead: set<RunId>)
    | Drop(ids: set<RowId>)

  ghost predicate Enabled(s: System, step: Step) {
    match step
    case Tick(_) => true
    case Put(id, _) => id !in s.used
    case Take(who, id) => who !in s.jobs && IsNext(s.Rows(), id, s.now)
    case SkipStale(who) => who in s.jobs && s.jobs[who].Holding? && s.jobs[who].id in s.Rows()
    case Call(who, _) => who in s.jobs && s.jobs[who].Holding? && s.jobs[who].id in s.Rows()
    case Record(who) => who in s.jobs && s.jobs[who].Answered? && s.jobs[who].id in s.Rows()
    case Restart(_) => true
    case Drop(_) => true
  }

  predicate Succeeded(verdict: Verdict) {
    verdict.Done? || verdict.Unchanged?
  }

  predicate CreatesMessage(op: OpType) {
    op == SendMessage || op == SendPhoto || op == SendDocument
  }

  /** The remote messages after an answered call. */
  function RemoteAfter(remote: map<int, Message>, row: Row, answer: Answer): map<int, Message> {
    if answer.Error? then remote
    else if CreatesMessage(row.op) && answer.messageId.Some? then
      remote[answer.messageId.value := Message(row.key, row.payload.content)]
    else if row.op == EditMessage && row.payload.target.Some? && row.payload.target.value in remote then
      remote[row.payload.target.value := remote[row.payload.target.value].(content := row.payload.content)]
    else if row.op == DeleteMessage && row.payload.target.Some? then remote - {row.payload.target.value}
    else remote
  }

  function VersionOf(id: RowId, row: Row): Version {
    Version(id, row.createdAt, row.payload.content)
  }

  function ClaimedIn(rows: Rows): set<RowId> {
    set id | id in rows && rows[id].status == Claimed
  }

  function OrphanIds(rows: Rows, dead: set<RunId>): set<RowId> {
    set id | id in rows && Orphan(rows[id], dead)
  }

  /** After a call: the claimant knows the verdict; the rest of the world may have changed. */
  function AfterCall(s: System, who: Claimant, answer: Answer): System
    requires who in s.jobs
  {
    var job := s.jobs[who];
    var row := job.row;
    var verdict := Judge(row.op, answer);
    var t := s.(jobs := s.jobs[who := Answered(job.id, row, verdict)], remote := RemoteAfter(s.remote, row, answer));
    if !Succeeded(verdict) then t
    else t.(calls := s.calls + multiset{job.id},
            shown := if row.key == "" then s.shown else s.shown[row.key := VersionOf(job.id, row)],
            home := if row.op == SendMessage && verdict.Done? && verdict.messageId.Some?
                    then s.home[row.key := verdict.messageId.value] else s.home)
  }

  function LimitsAfter(limits: nat, verdict: Verdict): nat {
    match verdict
    case Limited(_) => limits + 1
    case Refused => limits
    case _ => 0
  }

  function Apply(s: System, step: Step): System
    requires Enabled(s, step)
  {
    match step
    case Tick(elapsed) => s.(now := s.now + elapsed)
    case Put(id, request) =>
      var t := Enqueue(s.table, id, request, s.now);
      s.(table := t, used := s.used + {id}, lastPut := s.now,
         newest := if request.key == "" then s.newest else s.newest[request.key := VersionOf(id, t.rows[id])])
    case Take(who, id) =>
      s.(table := Claim(s.table, id, who.run), jobs := s.jobs[who := Holding(id, s.Rows()[id])])
    case SkipStale(who) =>
      s.(table := Skip(s.table, s.jobs[who].id, s.now), jobs := s.jobs - {who})
    case Call(who, answer) => AfterCall(s, who, answer)
    case Record(who) =>
      s.(table := Finish(s.table, s.jobs[who].id, s.jobs[who].verdict, s.now), jobs := s.jobs - {who},
         limits := LimitsAfter(s.limits, s.jobs[who].verdict))
    case Restart(dead) =>
      s.(table := Recover(s.table, dead),
         jobs := map c | c in s.jobs && c.run !in dead :: s.jobs[c],
         recoveries := s.recoveries + multiset(OrphanIds(s.Rows(), dead)))
    case Drop(ids) => s.(table := Cancel(s.table, ids))
  }

  function Start(now: int): System {
    System(Table(map[], None, 0), map[], map[], now, {}, now - 1, multiset{}, multiset{}, 0, map[], map[], map[])
  }

  ghost predicate Runs(s: System, steps: seq<Step>)
    decreases |steps|
  {
    steps != [] ==> Enabled(s, steps[0]) && Runs(Apply(s, steps[0]), steps[1..])
  }

  ghost function Exec(s: System, steps: seq<Step>): System
    requires Runs(s, steps)
    decreases |steps|
  {
    if steps == [] then s else Exec(Apply(s, steps[0]), steps[1..])
  }

  /** A step without a restart. */
  predicate Calm(step: Step) { !step.Restart? }

  ghost predicate AllCalm(steps: seq<Step>) { forall step | step in steps :: Calm(step) }

  // ---------------------------------------------------------------- claimants and claimed rows

  /** A job's row is in the table, claimed by the job's run and otherwise as the claimant read it. */
  ghost predicate JobFits(s: System, c: Claimant) {
    c in s.jobs ==>
      var job := s.jobs[c];
      job.id in s.Rows() && s.Rows()[job.id] == ClaimedRow(job.row, c.run) && job.row.status == Queued
  }

  ghost predicate JobsDiffer(s: System, c: Claimant, d: Claimant) {
    c in s.jobs && d in s.jobs && s.jobs[c].id == s.jobs[d].id ==> c == d
  }

  ghost predicate HeldByJob(s: System, id: RowId) {
    exists c :: c in s.jobs && s.jobs[c].id == id
  }

  ghost predicate WellFormed(s: System) {
    && s.Rows().Keys <= s.used
    && (forall c :: JobFits(s, c))
    && (forall c, d :: JobsDiffer(s, c, d))
    && (forall id | id in s.Rows() && s.Rows()[id].status == Claimed :: HeldByJob(s, id))
  }

  lemma StartWellFormed(now: int)
    ensures WellFormed(Start(now))
  {
  }

  /** Rows that no step may touch but their claimant's. */
  ghost predicate ClaimedKept(s: System, t: System, except: set<RowId>) {
    forall id | id in s.Rows() && s.Rows()[id].status == Claimed && id !in except ::
      id in t.Rows() && t.Rows()[id] == s.Rows()[id]
  }

  ghost predicate NoNewClaims(s: System, t: System) {
    forall id | id in t.Rows() && t.Rows()[id].status == Claimed :: id in s.Rows() && s.Rows()[id].status == Claimed
  }

  lemma FinishTouches(t: Table, id: RowId, verdict: Verdict, now: int)
    requires id in t.rows && t.rows[id].status == Claimed
    ensures var u := Finish(t, id, verdict, now);
            u.rows.Keys == t.rows.Keys && u.rows[id].status != Claimed &&
            forall j | j in t.rows && j != id && t.rows[j].status != Queued :: u.rows[j] == t.rows[j]
    ensures forall j | j in t.rows && j != id && t.rows[j].status == Queued ::
              Finish(t, id, verdict, now).rows[j].status == Queued
  {
  }

  lemma StepWellFormed(s: System, step: Step)
    requires WellFormed(s) && Enabled(s, step)
    ensures WellFormed(Apply(s, step))
  {
    match step {
      case Take(who, id) => TakeWellFormed(s, who, id);
      case SkipStale(who) => SkipWellFormed(s, who);
      case Record(who) => RecordWellFormed(s, who);
      case Restart(dead) => RestartWellFormed(s, dead);
      case _ => OtherWellFormed(s, step);
    }
  }

  lemma SkipWellFormed(s: System, who: Claimant)
    requires WellFormed(s) && Enabled(s, SkipStale(who))
    ensures WellFormed(Apply(s, SkipStale(who)))
  {
    assert JobFits(s, who);
    JobEnds(s, Apply(s, SkipStale(who)), who);
  }

  lemma RecordWellFormed(s: System, who: Claimant)
    requires WellFormed(s) && Enabled(s, Record(who))
    ensures WellFormed(Apply(s, Record(who)))
  {
    assert JobFits(s, who);
    FinishTouches(s.table, s.jobs[who].id, s.jobs[who].verdict, s.now);
    JobEnds(s, Apply(s, Record(who)), who);
  }

  lemma OtherWellFormed(s: System, step: Step)
    requires WellFormed(s) && Enabled(s, step) && (step.Tick? || step.Put? || step.Drop? || step.Call?)
    ensures WellFormed(Apply(s, step))
  {
    JobsGoOn(s, Apply(s, step));
  }

  /** The claimants keep their rows, whatever else changes. */
  lemma JobsGoOn(s: System, t: System)
    requires WellFormed(s)
    requires t.jobs.Keys == s.jobs.Keys && s.used <= t.used && t.Rows().Keys <= t.used
    requires forall c | c in s.jobs :: t.jobs[c].id == s.jobs[c].id && t.jobs[c].row == s.jobs[c].row
    requires ClaimedKept(s, t, {}) && NoNewClaims(s, t)
    ensures WellFormed(t)
  {
    forall c ensures JobFits(t, c) { assert JobFits(s, c); }
    forall c, d ensures JobsDiffer(t, c, d) { assert JobsDiffer(s, c, d); }
    forall j | j in t.Rows() && t.Rows()[j].status == Claimed ensures HeldByJob(t, j) { KeptHold(s, t, j); }
  }

  lemma TakeWellFormed(s: System, who: Claimant, id: RowId)
    requires WellFormed(s) && Enabled(s, Take(who, id))
    ensures WellFormed(Apply(s, Take(who, id)))
  {
    var t := Apply(s, Take(who, id));
    forall c ensures JobFits(t, c) { assert JobFits(s, c); }
    forall c, d ensures JobsDiffer(t, c, d) { assert JobsDiffer(s, c, d) && JobFits(s, c) && JobFits(s, d); }
    forall j | j in t.Rows() && t.Rows()[j].status == Claimed ensures HeldByJob(t, j) {
      if j == id { assert t.jobs[who].id == id; } else { KeptHold(s, t, j); }
    }
  }

  lemma KeptHold(s: System, t: System, id: RowId)
    requires HeldByJob(s, id)
    requires forall c | c in s.jobs :: c in t.jobs && t.jobs[c].id == s.jobs[c].id
    ensures HeldByJob(t, id)
  {
    var c :| c in s.jobs && s.jobs[c].id == id;
    assert t.jobs[c].id == id;
  }

  /** A claimant lets go of its row. */
  lemma JobEnds(s: System, t: System, who: Claimant)
    requires WellFormed(s) && who in s.jobs
    requires t.jobs == s.jobs - {who} && t.used == s.used && t.Rows().Keys == s.Rows().Keys
    requires s.jobs[who].id in s.Rows() && ClaimedKept(s, t, {s.jobs[who].id}) && NoNewClaims(s, t)
    requires t.Rows()[s.jobs[who].id].status != Claimed
    ensures WellFormed(t)
  {
    forall c ensures JobFits(t, c) {
      assert JobFits(s, c) && JobsDiffer(s, c, who);
    }
    forall c, d ensures JobsDiffer(t, c, d) { assert JobsDiffer(s, c, d); }
    forall j | j in t.Rows() && t.Rows()[j].status == Claimed ensures HeldByJob(t, j) {
      assert HeldByJob(s, j);
      var c :| c in s.jobs && s.jobs[c].id == j;
      assert c != who && t.jobs[c].id == j;
    }
  }

  lemma RestartWellFormed(s: System, dead: set<RunId>)
    requires WellFormed(s)
    ensures WellFormed(Apply(s, Restart(dead)))
  {
    var t := Apply(s, Restart(dead));
    forall c ensures JobFits(t, c) { assert JobFits(s, c); }
    forall c, d ensures JobsDiffer(t, c, d) { assert JobsDiffer(s, c, d); }
    forall j | j in t.Rows() && t.Rows()[j].status == Claimed ensures HeldByJob(t, j) {
      assert HeldByJob(s, j);
      var c :| c in s.jobs && s.jobs[c].id == j;
      assert JobFits(s, c);
      assert t.jobs[c].id == j;
    }
  }
}
