/** The global pause after a rate limit, and the growth of the backoff. */
module QueuePause {
  import opened Options
  import opened DeliveryTable
  import opened QueueRuns

  predicate WaitsFor(r: Row, pausedUntil: Option<int>) {
    r.status == Queued && pausedUntil.Some? ==> pausedUntil.value <= r.availableAt
  }

  /** No queued row becomes available inside the pause. */
  ghost predicate PauseKept(t: Table) {
    forall id | id in t.rows :: WaitsFor(t.rows[id], t.pausedUntil)
  }

  lemma StepKeepsPause(s: System, step: Step)
    requires Enabled(s, step) && Calm(step) && PauseKept(s.table)
    ensures PauseKept(Apply(s, step).table)
  {
    if step.Record? { RecordKeepsPause(s.table, s.jobs[step.who].id, s.jobs[step.who].verdict, s.now); }
  }

  lemma RecordKeepsPause(t: Table, id: RowId, verdict: Verdict, now: int)
    requires id in t.rows && PauseKept(t)
    ensures PauseKept(Finish(t, id, verdict, now))
  {
  }

  /** In every run without recovery, with any number of claimants, no claim starts inside a pause.
      Recoveries are the subject of `PauseKeptExactly`. */
  lemma {:induction false} NoClaimInsidePause(s: System, steps: seq<Step>)
    requires PauseKept(s.table) && Runs(s, steps) && AllCalm(steps)
    ensures PauseKept(Exec(s, steps).table)
    ensures forall id | IsNext(Exec(s, steps).Rows(), id, Exec(s, steps).now) ::
              var p := Exec(s, steps).table.pausedUntil; p.Some? ==> p.value <= Exec(s, steps).now
    decreases |steps|
  {
    if steps != [] {
      StepKeepsPause(s, steps[0]);
      NoClaimInsidePause(Apply(s, steps[0]), steps[1..]);
    }
  }

  // ---------------------------------------------------------------- recovery

  /** The claimed rows that a rate limit has overtaken: it was recorded by another claimant after
      their claim, and no success since has lifted the pause. */
  function OvertakenAfter(s: System, step: Step, over: set<RowId>): set<RowId>
    requires Enabled(s, step)
  {
    match step
    case Take(_, id) => over - {id}
    case SkipStale(who) => over - {s.jobs[who].id}
    case Record(who) =>
      var verdict := s.jobs[who].verdict;
      if verdict.Limited? then ClaimedIn(s.Rows()) - {s.jobs[who].id}
      else if Succeeded(verdict) then {}
      else over - {s.jobs[who].id}
    case Restart(dead) => over - OrphanIds(s.Rows(), dead)
    case _ => over
  }

  /** No recovery along the run puts back an overtaken row. */
  ghost predicate RecoversInTime(s: System, steps: seq<Step>, over: set<RowId>)
    requires Runs(s, steps)
    decreases |steps|
  {
    steps != [] ==>
      (steps[0].Restart? ==> OrphanIds(s.Rows(), steps[0].dead) !! over) &&
      RecoversInTime(Apply(s, steps[0]), steps[1..], OvertakenAfter(s, steps[0], over))
  }

  /** In no state of the run does a queued row become available inside the pause. */
  ghost predicate PauseKeptAlong(s: System, steps: seq<Step>)
    requires Runs(s, steps)
    decreases |steps|
  {
    PauseKept(s.table) && (steps != [] ==> PauseKeptAlong(Apply(s, steps[0]), steps[1..]))
  }

  /** A claimed row is overtaken exactly if it became available before the pause ends. */
  predicate ClaimTimed(t: Table, now: int, id: RowId, over: set<RowId>) {
    if id in t.rows && t.rows[id].status == Claimed then
      t.rows[id].availableAt <= now &&
      (id in over <==> t.pausedUntil.Some? && t.rows[id].availableAt < t.pausedUntil.value)
    else id !in over
  }

  ghost predicate ClaimsTimed(s: System, over: set<RowId>) {
    forall id :: ClaimTimed(s.table, s.now, id, over)
  }

  lemma FinishKeepsTimed(t: Table, current: RowId, verdict: Verdict, now: int, id: RowId, over: set<RowId>)
    requires current in t.rows && t.rows[current].status == Claimed && ClaimTimed(t, now, id, over)
    ensures var next := if verdict.Limited? then ClaimedIn(t.rows) - {current}
                        else if Succeeded(verdict) then {} else over - {current};
            ClaimTimed(Finish(t, current, verdict, now), now, id, next)
  {
    match verdict
    case Done(_) =>
    case Unchanged =>
    case Limited(retryAfter) => assert NextBackoff(t.backoff, retryAfter) >= 1;
    case Refused =>
  }

  lemma StepKeepsTimed(s: System, step: Step, over: set<RowId>)
    requires WellFormed(s) && PauseKept(s.table) && ClaimsTimed(s, over) && Enabled(s, step)
    ensures ClaimsTimed(Apply(s, step), OvertakenAfter(s, step, over))
  {
    var t, next := Apply(s, step), OvertakenAfter(s, step, over);
    forall id ensures ClaimTimed(t.table, t.now, id, next) {
      assert ClaimTimed(s.table, s.now, id, over);
      match step {
        case Record(who) =>
          assert JobFits(s, who);
          FinishKeepsTimed(s.table, s.jobs[who].id, s.jobs[who].verdict, s.now, id, over);
        case SkipStale(who) => assert JobFits(s, who);
        case _ =>
      }
    }
  }

  /** One recovery keeps the pause exactly if it puts back no overtaken row. */
  lemma RestartKeepsPauseExactly(s: System, dead: set<RunId>, over: set<RowId>)
    requires PauseKept(s.table) && ClaimsTimed(s, over)
    ensures PauseKept(Apply(s, Restart(dead)).table) <==> OrphanIds(s.Rows(), dead) !! over
  {
    var u := Apply(s, Restart(dead)).table;
    forall id | id in s.Rows() ensures WaitsFor(u.rows[id], u.pausedUntil) <==> !(id in OrphanIds(s.Rows(), dead) && id in over) {
      assert ClaimTimed(s.table, s.now, id, over) && WaitsFor(s.Rows()[id], s.table.pausedUntil);
    }
    if PauseKept(u) {
      forall id | id in OrphanIds(s.Rows(), dead) ensures id !in over { assert WaitsFor(u.rows[id], u.pausedUntil); }
    }
  }

  /** With any number of claimants, crashes and recoveries: the pause is kept all along a run if and
      only if no recovery puts back a row that another claimant's rate limit has overtaken. */
  lemma {:induction false} PauseKeptExactly(s: System, steps: seq<Step>, over: set<RowId>)
    requires WellFormed(s) && PauseKept(s.table) && ClaimsTimed(s, over) && Runs(s, steps)
    ensures PauseKeptAlong(s, steps) <==> RecoversInTime(s, steps, over)
    decreases |steps|
  {
    if steps != [] {
      var next := Apply(s, steps[0]);
      StepWellFormed(s, steps[0]);
      StepKeepsTimed(s, steps[0], over);
      if steps[0].Restart? {
        RestartKeepsPauseExactly(s, steps[0].dead, over);
      } else {
        StepKeepsPause(s, steps[0]);
      }
      if PauseKept(next.table) {
        PauseKeptExactly(next, steps[1..], OvertakenAfter(s, steps[0], over));
      }
    }
  }

  /** No claim along the run is made while another one is held. */
  ghost predicate OneAtATime(s: System, steps: seq<Step>)
    requires Runs(s, steps)
    decreases |steps|
  {
    steps != [] ==> (steps[0].Take? ==> s.jobs == map[]) && OneAtATime(Apply(s, steps[0]), steps[1..])
  }

  lemma {:induction false} OneClaimantRecoversInTime(s: System, steps: seq<Step>)
    requires WellFormed(s) && Runs(s, steps) && OneAtATime(s, steps)
    requires forall c, d | c in s.jobs && d in s.jobs :: c == d
    ensures RecoversInTime(s, steps, {})
    decreases |steps|
  {
    if steps != [] {
      var step := steps[0];
      StepWellFormed(s, step);
      OneClaimantStep(s, step);
      OneClaimantRecoversInTime(Apply(s, step), steps[1..]);
    }
  }

  lemma OneClaimantStep(s: System, step: Step)
    requires WellFormed(s) && Enabled(s, step) && (step.Take? ==> s.jobs == map[])
    requires forall c, d | c in s.jobs && d in s.jobs :: c == d
    ensures OvertakenAfter(s, step, {}) == {}
    ensures forall c, d | c in Apply(s, step).jobs && d in Apply(s, step).jobs :: c == d
  {
    if step.Record? { OnlyClaimed(s, step.who); }
  }

  lemma OnlyClaimed(s: System, who: Claimant)
    requires WellFormed(s) && who in s.jobs && forall c, d | c in s.jobs && d in s.jobs :: c == d
    ensures ClaimedIn(s.Rows()) <= {s.jobs[who].id}
  {
    forall id | id in ClaimedIn(s.Rows()) ensures id == s.jobs[who].id { assert HeldByJob(s, id); }
  }

  /** With one claimant at a time the pause is kept in every run, recoveries included. */
  lemma OneClaimantKeepsPause(now: int, steps: seq<Step>)
    requires Runs(Start(now), steps) && OneAtATime(Start(now), steps)
    ensures PauseKeptAlong(Start(now), steps)
  {
    StartWellFormed(now);
    OneClaimantRecoversInTime(Start(now), steps);
    PauseKeptExactly(Start(now), steps, {});
  }

  // ---------------------------------------------------------------- backoff

  function Power2(n: nat): nat {
    if n == 0 then 1 else 2 * Power2(n - 1)
  }

  /** After `n` rate limits without a success in between. */
  ghost predicate BackoffGrown(backoff: nat, n: nat) {
    backoff <= MAX_BACKOFF_SECONDS && (n > 0 ==> Min(Power2(n), MAX_BACKOFF_SECONDS) <= backoff)
  }

  lemma NextBackoffGrows(backoff: nat, retryAfter: int, n: nat)
    requires BackoffGrown(backoff, n)
    ensures backoff <= NextBackoff(backoff, retryAfter) && BackoffGrown(NextBackoff(backoff, retryAfter), n + 1)
    ensures Min(retryAfter, MAX_BACKOFF_SECONDS) <= NextBackoff(backoff, retryAfter)
  {
    assert Power2(n + 1) == 2 * Power2(n);
  }

  lemma StepKeepsBackoff(s: System, step: Step)
    requires Enabled(s, step) && BackoffGrown(s.table.backoff, s.limits)
    ensures var t := Apply(s, step);
            BackoffGrown(t.table.backoff, t.limits) && (t.limits > 0 ==> s.table.backoff <= t.table.backoff)
  {
    if step.Record? && s.jobs[step.who].verdict.Limited? {
      NextBackoffGrows(s.table.backoff, s.jobs[step.who].verdict.retryAfter, s.limits);
    }
  }

  /** In every run, after `n` consecutive rate limits the backoff lies between min(2^n, 3600) and
      3600 seconds, and it never shrinks before the next success. */
  lemma {:induction false} BackoffInRuns(s: System, steps: seq<Step>)
    requires BackoffGrown(s.table.backoff, s.limits) && Runs(s, steps)
    ensures var t := Exec(s, steps); BackoffGrown(t.table.backoff, t.limits)
    ensures NoSuccess(s, steps) ==> s.table.backoff <= Exec(s, steps).table.backoff
    decreases |steps|
  {
    if steps != [] {
      StepKeepsBackoff(s, steps[0]);
      BackoffInRuns(Apply(s, steps[0]), steps[1..]);
    }
  }

  /** No success is recorded along the run. */
  ghost predicate NoSuccess(s: System, steps: seq<Step>)
    requires Runs(s, steps)
    decreases |steps|
  {
    steps != [] ==>
      (steps[0].Record? ==> !Succeeded(s.jobs[steps[0].who].verdict)) && NoSuccess(Apply(s, steps[0]), steps[1..])
  }

  // ---------------------------------------------------------------- how long rows wait

  /** When the rate limit that still counts was recorded: the last one since the last success. */
  function LimitAfter(s: System, step: Step, at: Option<int>): Option<int>
    requires Enabled(s, step)
  {
    if !step.Record? || s.jobs[step.who].verdict.Refused? then at
    else if s.jobs[step.who].verdict.Limited? then Some(s.now)
    else None
  }

  ghost function LastLimit(s: System, steps: seq<Step>, at: Option<int>): Option<int>
    requires Runs(s, steps)
    decreases |steps|
  {
    if steps == [] then at else LastLimit(Apply(s, steps[0]), steps[1..], LimitAfter(s, steps[0], at))
  }

  /** The pause ends exactly the backoff after that rate limit. */
  predicate PauseDated(t: Table, at: Option<int>) {
    t.pausedUntil == match at case None => None case Some(n) => Some(n + t.backoff * SECOND)
  }

  /** Over every run: there is a pause if and only if a rate limit was recorded with no success since,
      and it ends the current backoff after the last such rate limit. */
  lemma {:induction false} PauseEndsExactly(s: System, steps: seq<Step>, at: Option<int>)
    requires Runs(s, steps) && PauseDated(s.table, at)
    ensures PauseDated(Exec(s, steps).table, LastLimit(s, steps, at))
    decreases |steps|
  {
    if steps != [] { PauseEndsExactly(Apply(s, steps[0]), steps[1..], LimitAfter(s, steps[0], at)); }
  }

  /** The latest end of a pause so far. */
  function LatestPause(latest: int, t: Table): int {
    if t.pausedUntil.Some? then Max(latest, t.pausedUntil.value) else latest
  }

  ghost function LatestPauseAlong(s: System, steps: seq<Step>, latest: int): int
    requires Runs(s, steps)
    decreases |steps|
  {
    if steps == [] then latest
    else LatestPauseAlong(Apply(s, steps[0]), steps[1..], LatestPause(latest, Apply(s, steps[0]).table))
  }

  predicate WaitsNoLonger(r: Row, latest: int) {
    r.createdAt + THROTTLE <= r.availableAt <= Max(r.createdAt + THROTTLE, latest)
  }

  ghost predicate AllWaitNoLonger(t: Table, latest: int) {
    LatestPause(latest, t) == latest && forall id | id in t.rows :: WaitsNoLonger(t.rows[id], latest)
  }

  /** A claimed row has become available. */
  predicate ClaimDue(t: Table, now: int, id: RowId) {
    id in t.rows && t.rows[id].status == Claimed ==> t.rows[id].availableAt <= now
  }

  ghost predicate ClaimsDue(s: System) {
    forall id :: ClaimDue(s.table, s.now, id)
  }

  lemma FinishKeepsClaimDue(t: Table, current: RowId, verdict: Verdict, now: int, id: RowId)
    requires current in t.rows && t.rows[current].status == Claimed && ClaimDue(t, now, id)
    ensures ClaimDue(Finish(t, current, verdict, now), now, id)
  {
  }

  lemma StepKeepsClaimsDue(s: System, step: Step)
    requires WellFormed(s) && Enabled(s, step) && ClaimsDue(s)
    ensures ClaimsDue(Apply(s, step))
  {
    var t := Apply(s, step);
    forall id ensures ClaimDue(t.table, t.now, id) {
      assert ClaimDue(s.table, s.now, id);
      match step {
        case Record(who) =>
          assert JobFits(s, who);
          FinishKeepsClaimDue(s.table, s.jobs[who].id, s.jobs[who].verdict, s.now, id);
        case _ =>
      }
    }
  }

  lemma StepWaits(s: System, step: Step, latest: int)
    requires WellFormed(s) && Enabled(s, step) && AllWaitNoLonger(s.table, latest) && ClaimsDue(s)
    ensures AllWaitNoLonger(Apply(s, step).table, LatestPause(latest, Apply(s, step).table))
  {
    if step.Record? {
      assert JobFits(s, step.who) && ClaimDue(s.table, s.now, s.jobs[step.who].id);
      RecordWaits(s.table, s.jobs[step.who].id, s.jobs[step.who].verdict, s.now, latest);
    }
  }

  lemma RecordWaits(t: Table, id: RowId, verdict: Verdict, now: int, latest: int)
    requires id in t.rows && t.rows[id].availableAt <= now && AllWaitNoLonger(t, latest)
    ensures AllWaitNoLonger(Finish(t, id, verdict, now), LatestPause(latest, Finish(t, id, verdict, now)))
  {
    match verdict
    case Limited(retryAfter) => assert NextBackoff(t.backoff, retryAfter) >= 1;
    case _ =>
  }

  /** Over every run, with crashes and recoveries: a row waits for the throttle and for the pauses
      so far, and for nothing else. */
  lemma {:induction false} RowsWaitForPausesOnly(s: System, steps: seq<Step>, latest: int)
    requires WellFormed(s) && Runs(s, steps) && AllWaitNoLonger(s.table, latest) && ClaimsDue(s)
    ensures AllWaitNoLonger(Exec(s, steps).table, LatestPauseAlong(s, steps, latest))
    decreases |steps|
  {
    if steps != [] {
      StepWellFormed(s, steps[0]);
      StepKeepsClaimsDue(s, steps[0]);
      StepWaits(s, steps[0], latest);
      RowsWaitForPausesOnly(Apply(s, steps[0]), steps[1..], LatestPause(latest, Apply(s, steps[0]).table));
    }
  }
}
