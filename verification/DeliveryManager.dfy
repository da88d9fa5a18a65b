/** `TelegramDeliveryManager` and the recovery part of `ServiceRunStore.start`, as an object that
    updates the queue table in place. Every method is one database transaction, except `ProcessNext`. */
module DeliveryManager {
  import opened Options
  import opened DeliveryTable

  /** What is known of a run that claimed rows: nothing, or whether it stopped and whether its
      process is gone. */
  datatype RunInfo = Unknown | Known(stopped: bool, processGone: bool)

  predicate IsDead(info: RunInfo) {
    info.Unknown? || info.stopped || info.processGone
  }

  class Manager {
    var rows: Rows
    var pausedUntil: Option<int>
    var backoff: nat

    ghost function Table(): Table
      reads this
    {
      DeliveryTable.Table(rows, pausedUntil, backoff)
    }

    constructor ()
      ensures Table() == DeliveryTable.Table(map[], None, 0)
    {
      rows, pausedUntil, backoff := map[], None, 0;
    }

    method Enqueue(id: RowId, request: Request, now: int)
      requires id !in rows
      modifies this
      ensures Table() == DeliveryTable.Enqueue(old(Table()), id, request, now)
    {
      var availableAt := InitialAvailableAt(pausedUntil, now);
      if request.key != "" {
        rows := map j | j in rows && !(rows[j].key == request.key && rows[j].status == Queued) :: rows[j];
      }
      rows := rows[id := Row(now, availableAt, Queued, request.op, request.messageId, request.key,
                             request.priority, request.payload, 0, None, None)];
    }

    /** The claiming query: the first of the ready rows by priority and creation time. */
    method FindNext(now: int) returns (found: Option<RowId>)
      ensures found.Some? ==> IsNext(rows, found.value, now)
      ensures found.None? ==> forall j | j in rows :: !Ready(rows[j], now)
    {
      found := None;
      var todo := rows.Keys;
      while todo != {}
        invariant todo <= rows.Keys
        invariant found.Some? ==> found.value in rows && Ready(rows[found.value], now)
        invariant forall j | j in rows && j !in todo && Ready(rows[j], now) ::
                    found.Some? && Before(rows[found.value], rows[j])
      {
        var j :| j in todo;
        todo := todo - {j};
        if rows[j].status == Queued && rows[j].availableAt <= now &&
           (found.None? || !Before(rows[found.value], rows[j])) {
          found := Some(j);
        }
      }
    }

    method ClaimRow(id: RowId, run: RunId)
      requires id in rows
      modifies this`rows
      ensures Table() == Claim(old(Table()), id, run)
    {
      rows := rows[id := rows[id].(status := Claimed, claimedBy := Some(run))];
    }

    /** `_promote_pending_send_replacements`: one update for each queued send of the key. */
    method PromotePending(current: RowId, key: string, messageId: int)
      modifies this`rows
      ensures rows == Promote(old(rows), current, key, messageId)
    {
      if key == "" {
        return;
      }
      var pending := set j | j in rows && rows[j].key == key && j != current && rows[j].status == Queued;
      var todo := pending;
      while todo != {}
        invariant todo <= pending && rows.Keys == old(rows).Keys
        invariant forall j | j in rows ::
                    rows[j] == if j in pending - todo then Promote(old(rows), current, key, messageId)[j] else old(rows)[j]
      {
        var j :| j in todo;
        todo := todo - {j};
        if rows[j].op == SendMessage {
          rows := rows[j := rows[j].(op := EditMessage,
                                     messageId := Some(messageId),
                                     payload := Payload(rows[j].payload.content, Some(messageId)))];
        }
      }
    }

    /** `_advance_global_pause` */
    method AdvanceGlobalPause(retryAfter: int, now: int) returns (pause: int)
      modifies this`pausedUntil, this`backoff
      ensures backoff == NextBackoff(old(backoff), retryAfter)
      ensures pause == now + backoff * SECOND && pausedUntil == Some(pause)
    {
      var next := INITIAL_BACKOFF_SECONDS;
      if backoff >= INITIAL_BACKOFF_SECONDS {
        next := Min(backoff * 2, MAX_BACKOFF_SECONDS);
      }
      next := Max(next, Max(retryAfter, 1));
      next := Min(next, MAX_BACKOFF_SECONDS);
      backoff := next;
      pause := now + next * SECOND;
      pausedUntil := Some(pause);
    }

    /** The transaction that records the outcome of the remote call for a claimed row. */
    method RecordOutcome(id: RowId, verdict: Verdict, now: int)
      requires id in rows
      modifies this
      ensures Table() == Finish(old(Table()), id, verdict, now)
    {
      match verdict
      case Done(m) =>
        var r := rows[id];
        rows := rows[id := DoneRow(r, m, now)];
        if m.Some? && r.op == SendMessage {
          PromotePending(id, r.key, m.value);
        }
        pausedUntil, backoff := None, 0;
      case Unchanged =>
        rows := rows[id := rows[id].(status := Completed, completedAt := Some(now))];
        pausedUntil, backoff := None, 0;
      case Limited(retryAfter) =>
        var pause := AdvanceGlobalPause(retryAfter, now);
        rows := rows[id := RequeuedRow(rows[id], pause)];
        rows := map j | j in rows :: RaisedRow(rows[j], pause);
      case Refused =>
        rows := rows[id := FailedRow(rows[id], now)];
    }

    /** `process_next`, when nothing else touches the table in between: claim, skip a stale row or
        call, and record. `answer` is what the remote call gives, `stale` what the session shows. */
    method ProcessNext(run: RunId, now: int, later: int, stale: bool, answer: Answer) returns (done: Option<RowId>)
      modifies this
      ensures done.None? ==> Table() == old(Table()) && forall j | j in rows :: !Ready(rows[j], now)
      ensures done.Some? ==> IsNext(old(rows), done.value, now)
      ensures done.Some? ==>
                var claimed := Claim(old(Table()), done.value, run);
                Table() == if stale then Skip(claimed, done.value, later)
                           else Finish(claimed, done.value, Judge(claimed.rows[done.value].op, answer), later)
    {
      done := FindNext(now);
      if done.None? {
        return;
      }
      var id := done.value;
      ClaimRow(id, run);
      if stale {
        rows := rows[id := rows[id].(status := Completed, completedAt := Some(later), claimedBy := None)];
        return;
      }
      RecordOutcome(id, Judge(rows[id].op, answer), later);
    }

    /** `latest_message_id_for_dedupe` */
    method LatestMessageId(key: string) returns (found: Option<int>)
      ensures IsLatestMessage(rows, key, found)
    {
      found := None;
      if key == "" {
        return;
      }
      var best: Option<RowId> := None;
      var todo := rows.Keys;
      while todo != {}
        invariant todo <= rows.Keys
        invariant best.Some? ==> best.value in rows && Names(rows[best.value], key)
        invariant forall j | j in rows && j !in todo && Names(rows[j], key) ::
                    best.Some? && LaterOrSame(rows[best.value], rows[j])
      {
        var j :| j in todo;
        todo := todo - {j};
        if Names(rows[j], key) && (best.None? || !LaterOrSame(rows[best.value], rows[j])) {
          best := Some(j);
        }
      }
      if best.Some? {
        assert IsLatestRow(rows, key, best.value);
        found := rows[best.value].messageId;
      }
    }

    /** `ServiceRunStore.start`: collects the dead runs among the claimants of claimed rows, then
        puts back the rows that nobody or a dead run holds. */
    method Start(run: RunId, runs: map<RunId, RunInfo>)
      modifies this`rows
      ensures Table() == Recover(old(Table()), DeadClaimants(old(rows), run, runs))
    {
      var dead := FindDead(run, runs);
      TwoUpdates(Table(), dead);
      rows := WithoutUnowned(rows);
      rows := WithoutClaimsOf(rows, dead);
    }

    /** The loop over the claimants of claimed rows, other than this run. */
    method FindDead(run: RunId, runs: map<RunId, RunInfo>) returns (dead: set<RunId>)
      ensures dead == DeadClaimants(rows, run, runs)
    {
      var stale := Claimants(rows, run);
      dead := {};
      var todo := stale;
      while todo != {}
        invariant todo <= stale && dead == set c | c in stale - todo && IsDead(Info(runs, c))
      {
        var c :| c in todo;
        todo := todo - {c};
        if c !in runs || runs[c] == Unknown {
          dead := dead + {c};
        } else if runs[c].stopped {
          dead := dead + {c};
        } else if runs[c].processGone {
          dead := dead + {c};
        }
      }
    }
  }

  /** The first update: claimed rows that name no run are queued again. */
  function WithoutUnowned(rows: Rows): Rows {
    map j | j in rows ::
      if rows[j].status == Claimed && rows[j].claimedBy.None? then rows[j].(status := Queued, claimedBy := None) else rows[j]
  }

  /** The second update: so are the claimed rows of dead runs. */
  function WithoutClaimsOf(rows: Rows, dead: set<RunId>): Rows {
    map j | j in rows ::
      if rows[j].status == Claimed && rows[j].claimedBy.Some? && rows[j].claimedBy.value in dead
      then rows[j].(status := Queued, claimedBy := None) else rows[j]
  }

  /** Together they are the recovery of the table. */
  lemma TwoUpdates(t: DeliveryTable.Table, dead: set<RunId>)
    ensures t.(rows := WithoutClaimsOf(WithoutUnowned(t.rows), dead)) == Recover(t, dead)
  {
    var second, both := WithoutClaimsOf(WithoutUnowned(t.rows), dead), Recover(t, dead).rows;
    assert second.Keys == both.Keys;
    forall j | j in t.rows ensures second[j] == both[j] { assert second[j] == RecoveredRow(t.rows[j], dead); }
    assert second == both;
  }

  function Info(runs: map<RunId, RunInfo>, run: RunId): RunInfo {
    if run in runs then runs[run] else Unknown
  }

  /** The other runs that hold claimed rows. */
  function Claimants(rows: Rows, run: RunId): set<RunId> {
    set j | j in rows && rows[j].status == Claimed && rows[j].claimedBy.Some? && rows[j].claimedBy.value != run ::
      rows[j].claimedBy.value
  }

  function DeadClaimants(rows: Rows, run: RunId, runs: map<RunId, RunInfo>): set<RunId> {
    set c | c in Claimants(rows, run) && IsDead(Info(runs, c))
  }
}
