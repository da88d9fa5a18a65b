/** A run of the queue with two claimants in which a recovery breaks the pause. */
module QueueExamples {
  import opened Options
  import opened DeliveryTable
  import opened QueueRuns

  const TYPING := Request(Typing, None, "", 100, Payload(Content("", None), None))

  const FIRST_RUN := Claimant(1, 0)
  const SECOND_RUN := Claimant(2, 0)

  function TypingRow(createdAt: int): Row {
    NewRow(TYPING, None, createdAt)
  }

  lemma RunsThrough(s: System, step: Step, more: seq<Step>)
    requires Enabled(s, step) && Runs(Apply(s, step), more)
    ensures Runs(s, [step] + more) && Exec(s, [step] + more) == Exec(Apply(s, step), more)
  {
    assert ([step] + more)[1..] == more;
  }

  lemma PutTyping(s: System, id: RowId)
    requires id !in s.used && s.table.pausedUntil == None
    ensures Apply(s, Put(id, TYPING)) ==
            s.(table := s.table.(rows := s.Rows()[id := TypingRow(s.now)]), used := s.used + {id}, lastPut := s.now)
  {
    assert DropReplaced(s.Rows(), "") == s.Rows();
  }

  /** Two rows wait ... */
  const WAITING := QueueRuns.Start(0).(
    table := Table(map[1 := TypingRow(0), 2 := TypingRow(0)], None, 0), used := {1, 2}, lastPut := 0, now := THROTTLE)

  /** ... and each is claimed by a run of its own. */
  const BOTH_CLAIMED := WAITING.(
    table := Table(map[1 := ClaimedRow(TypingRow(0), 1), 2 := ClaimedRow(TypingRow(0), 2)], None, 0),
    jobs := map[FIRST_RUN := Holding(1, TypingRow(0)), SECOND_RUN := Holding(2, TypingRow(0))])

  lemma TwoRowsWait() returns (steps: seq<Step>)
    ensures Runs(QueueRuns.Start(0), steps) && Exec(QueueRuns.Start(0), steps) == WAITING
  {
    var s0 := QueueRuns.Start(0);
    var a, b, c := Put(1, TYPING), Put(2, TYPING), Tick(THROTTLE);
    PutTyping(s0, 1);
    var s1 := Apply(s0, a);
    PutTyping(s1, 2);
    var s2 := Apply(s1, b);
    assert s2.Rows() == map[1 := TypingRow(0), 2 := TypingRow(0)] && s2.used == {1, 2};
    RunsThrough(s2, c, []);
    RunsThrough(s1, b, [c] + []);
    RunsThrough(s0, a, [b] + ([c] + []));
    steps := [a] + ([b] + ([c] + []));
  }

  lemma BothAreClaimed() returns (steps: seq<Step>)
    ensures Runs(WAITING, steps) && Exec(WAITING, steps) == BOTH_CLAIMED
  {
    var a, b := Take(FIRST_RUN, 1), Take(SECOND_RUN, 2);
    var s1 := Apply(WAITING, a);
    var s2 := Apply(s1, b);
    assert s2.Rows() == BOTH_CLAIMED.Rows() && s2.jobs == BOTH_CLAIMED.jobs;
    RunsThrough(s1, b, []);
    RunsThrough(WAITING, a, [b] + []);
    steps := [a] + ([b] + []);
  }

  const PAUSE := THROTTLE + 2 * SECOND

  /** The second is rate limited, and recorded so ... */
  const LIMITED := BOTH_CLAIMED.(
    table := Table(map[1 := ClaimedRow(TypingRow(0), 1), 2 := RequeuedRow(ClaimedRow(TypingRow(0), 2), PAUSE)], Some(PAUSE), 2),
    jobs := map[FIRST_RUN := Holding(1, TypingRow(0))], limits := 1)

  lemma LimitIsRecorded()
    ensures FinishLimited(BOTH_CLAIMED.table, 2, 1, THROTTLE) == LIMITED.table
  {
    assert NextBackoff(0, 1) == 2;
    assert FinishLimited(BOTH_CLAIMED.table, 2, 1, THROTTLE).rows == LIMITED.Rows();
  }

  lemma SecondIsLimited() returns (steps: seq<Step>)
    ensures Runs(BOTH_CLAIMED, steps) && Exec(BOTH_CLAIMED, steps) == LIMITED
  {
    var a, b := Call(SECOND_RUN, Error(false, false, Some(1))), Record(SECOND_RUN);
    var s1 := Apply(BOTH_CLAIMED, a);
    LimitIsRecorded();
    assert Apply(s1, b).jobs == LIMITED.jobs;
    RunsThrough(s1, b, []);
    RunsThrough(BOTH_CLAIMED, a, [b] + []);
    steps := [a] + ([b] + []);
  }

  /** ... then the first run is found dead: its row is put back, and can be claimed at once, inside
      the pause. */
  lemma FirstIsPutBack() returns (steps: seq<Step>)
    ensures Runs(LIMITED, steps)
    ensures var t := Exec(LIMITED, steps);
            t.table.pausedUntil == Some(PAUSE) && t.now == THROTTLE && IsNext(t.Rows(), 1, t.now) && t.jobs == map[]
  {
    steps := [Restart({1})] + [];
    var t := Apply(LIMITED, Restart({1}));
    assert t.Rows() == LIMITED.Rows()[1 := TypingRow(0)];
    assert t.jobs == map[];
    RunsThrough(LIMITED, Restart({1}), []);
  }

  lemma {:induction false} RunsThroughAll(s: System, first: seq<Step>, more: seq<Step>)
    requires Runs(s, first) && Runs(Exec(s, first), more)
    ensures Runs(s, first + more) && Exec(s, first + more) == Exec(Exec(s, first), more)
    decreases |first|
  {
    if first == [] {
      assert first + more == more;
    } else {
      var t := Apply(s, first[0]);
      RunsThroughAll(t, first[1..], more);
      RunsThrough(s, first[0], first[1..] + more);
      assert [first[0]] + (first[1..] + more) == first + more;
    }
  }

  /** With two claimants, a recovery can let a claim start inside the pause. */
  lemma RecoveryBreaksPause() returns (steps: seq<Step>, who: Claimant)
    ensures Runs(QueueRuns.Start(0), steps)
    ensures var t := Exec(QueueRuns.Start(0), steps);
            t.table.pausedUntil.Some? && t.now < t.table.pausedUntil.value && Enabled(t, Take(who, 1))
  {
    var waits := TwoRowsWait();
    var claims := BothAreClaimed();
    var limit := SecondIsLimited();
    var back := FirstIsPutBack();
    RunsThroughAll(BOTH_CLAIMED, limit, back);
    RunsThroughAll(WAITING, claims, limit + back);
    RunsThroughAll(QueueRuns.Start(0), waits, claims + (limit + back));
    steps, who := waits + (claims + (limit + back)), Claimant(3, 0);
  }
}
