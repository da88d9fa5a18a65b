/** The daily sleep: when it runs, and how its lessons reach the sessions. Times are seconds of the
    local clock. */
module Sleep {
  import opened Options
  import opened SessionRecords
  import opened SessionStore

  const DAY := 86_400
  const HOUR := 3_600
  const MAX_LESSON_COUNT := 3
  const MAX_LESSON_CHARS := 6_000

  /** The stored sleep state, and the lesson written for each generation. */
  datatype State = State(
    lastScheduled: Option<int>,
    lastAttempted: Option<int>,
    generation: nat,
    lessons: map<nat, string>)

  // ---------------------------------------------------------------- deadlines

  /** `latest_sleep_deadline` */
  function LatestDeadline(now: int, hour: nat): int {
    var candidate := now / DAY * DAY + hour * HOUR;
    if now < candidate then candidate - DAY else candidate
  }

  /** The deadline is the last moment at that hour which is not in the future. */
  lemma DeadlineIsLatest(now: int, hour: nat)
    requires hour < 24
    ensures LatestDeadline(now, hour) <= now < LatestDeadline(now, hour) + DAY
    ensures LatestDeadline(now, hour) % DAY == hour * HOUR
  {
    var candidate := now / DAY * DAY + hour * HOUR;
    assert candidate % DAY == hour * HOUR && (candidate - DAY) % DAY == hour * HOUR by {
      SameHour(now / DAY, hour * HOUR);
      SameHour(now / DAY - 1, hour * HOUR);
    }
  }

  lemma SameHour(day: int, offset: int)
    requires 0 <= offset < DAY
    ensures (day * DAY + offset) % DAY == offset && (day * DAY + offset) / DAY == day
  {
  }

  lemma WholeDays(x: int, y: int)
    requires x % DAY == y % DAY
    ensures x < y ==> x + DAY <= y
  {
    assert y - x == (y / DAY - x / DAY) * DAY;
  }

  lemma DeadlineMonotone(a: int, b: int, hour: nat)
    requires hour < 24 && a <= b
    ensures LatestDeadline(a, hour) <= LatestDeadline(b, hour)
  {
    DeadlineIsLatest(a, hour);
    DeadlineIsLatest(b, hour);
    WholeDays(LatestDeadline(b, hour), LatestDeadline(a, hour));
  }

  /** `should_run_sleep` */
  predicate ShouldRun(s: State, now: int, hour: nat) {
    var deadline := LatestDeadline(now, hour);
    if s.lastScheduled.Some? && s.lastScheduled.value >= deadline then false
    else s.lastAttempted.None? || s.lastAttempted.value < deadline
  }

  /** `run_sleep` on the stored state: the attempt is recorded first; a lesson means the agent
      answered. */
  function Slept(s: State, now: int, hour: nat, lesson: Option<string>): State {
    var deadline := LatestDeadline(now, hour);
    match lesson
    case None => s.(lastAttempted := Some(deadline))
    case Some(text) =>
      State(Some(deadline), Some(deadline), s.generation + 1, s.lessons[s.generation + 1 := text])
  }

  /** The sessions after a sleep: the attached ones must be refreshed. */
  function Marked(sessions: Sessions, lesson: Option<string>): Sessions {
    if lesson.None? then sessions
    else map id | id in sessions :: if sessions[id].attached then sessions[id].(dirty := true) else sessions[id]
  }

  /** A check of the service loop, or the explicit command. */
  datatype Check = Check(now: int, automatic: bool, work: bool, lesson: Option<string>)

  predicate Fires(s: State, c: Check, hour: nat) {
    c.automatic ==> c.work && ShouldRun(s, c.now, hour)
  }

  function Checked(s: State, c: Check, hour: nat): State {
    if Fires(s, c, hour) then Slept(s, c.now, hour, c.lesson) else s
  }

  /** The deadlines that automatic checks attempt, in order. */
  function Attempts(s: State, checks: seq<Check>, hour: nat): seq<int>
    decreases |checks|
  {
    if checks == [] then []
    else (if checks[0].automatic && Fires(s, checks[0], hour) then [LatestDeadline(checks[0].now, hour)] else []) +
         Attempts(Checked(s, checks[0], hour), checks[1..], hour)
  }

  predicate TimesFrom(checks: seq<Check>, now: int) {
    checks != [] ==> now <= checks[0].now && TimesFrom(checks[1..], checks[0].now)
  }

  ghost predicate Increasing(xs: seq<int>) {
    forall i, j | 0 <= i < j < |xs| :: xs[i] < xs[j]
  }

  lemma IncreasingCons(x: int, xs: seq<int>)
    requires Increasing(xs) && forall y | y in xs :: x < y
    ensures Increasing([x] + xs)
  {
    forall i, j | 0 <= i < j < |[x] + xs| ensures ([x] + xs)[i] < ([x] + xs)[j] { assert xs[j - 1] in xs; }
  }

  /** For check times that never go back, the automatically attempted deadlines strictly increase,
      even with explicit sleeps in between: no deadline is attempted twice. */
  lemma {:induction false} AttemptsIncrease(s: State, checks: seq<Check>, hour: nat, now: int)
    requires hour < 24 && TimesFrom(checks, now)
    requires s.lastAttempted.Some? ==> s.lastAttempted.value <= LatestDeadline(now, hour)
    ensures Increasing(Attempts(s, checks, hour))
    ensures forall d | d in Attempts(s, checks, hour) :: s.lastAttempted.Some? ==> s.lastAttempted.value < d
    decreases |checks|
  {
    if checks != [] {
      var c := checks[0];
      DeadlineMonotone(now, c.now, hour);
      AttemptsIncrease(Checked(s, c, hour), checks[1..], hour, c.now);
      var later := Attempts(Checked(s, c, hour), checks[1..], hour);
      if c.automatic && Fires(s, c, hour) { IncreasingCons(LatestDeadline(c.now, hour), later); }
      assert [] + later == later;
    }
  }

  // ---------------------------------------------------------------- generations

  /** What a turn's input tells the agent before the user's request. */
  datatype Preface = Nothing | SessionStart | Lessons(texts: seq<string>) | FullRefresh

  /** The lessons of the generations after `seen` up to `upTo`, oldest first. */
  function MissedLessons(lessons: map<nat, string>, seen: nat, upTo: nat): seq<string>
    decreases upTo
  {
    if upTo <= seen then []
    else MissedLessons(lessons, seen, upTo - 1) + (if upTo in lessons then [lessons[upTo]] else [])
  }

  function TotalChars(texts: seq<string>): nat {
    if texts == [] then 0 else |texts[0]| + TotalChars(texts[1..])
  }

  /** `build_refresh_instructions` */
  function Refresh(s: State, seen: nat): (Preface, nat) {
    if s.generation <= seen then (Nothing, seen)
    else
      var missed := MissedLessons(s.lessons, seen, s.generation);
      (if missed != [] && |missed| <= MAX_LESSON_COUNT && TotalChars(missed) <= MAX_LESSON_CHARS
       then Lessons(missed) else FullRefresh, s.generation)
  }

  /** `_build_turn_input`: the preface, and the session record with the generation it then has seen. */
  function TurnInput(session: Session, s: State): (Preface, Session) {
    if !session.dirty then (Nothing, session)
    else if session.thread.None? then (SessionStart, session)
    else
      var (preface, generation) := Refresh(s, session.generation);
      (preface, if preface.Nothing? then session else session.(generation := generation))
  }

  predicate UpToDate(session: Session, s: State) {
    session.attached && !session.dirty ==> session.generation == s.generation
  }

  /** Every attached session that need not be refreshed has seen the current generation. */
  ghost predicate CleanMeansCurrent(sessions: Sessions, s: State) {
    forall id | id in sessions :: UpToDate(sessions[id], s)
  }

  lemma SleepKeepsCurrent(sessions: Sessions, s: State, now: int, hour: nat, lesson: Option<string>)
    requires CleanMeansCurrent(sessions, s)
    ensures CleanMeansCurrent(Marked(sessions, lesson), Slept(s, now, hour, lesson))
  {
    forall id | id in sessions ensures UpToDate(Marked(sessions, lesson)[id], Slept(s, now, hour, lesson)) {
      assert UpToDate(sessions[id], s);
    }
  }

  /** A turn on an existing thread of an attached session that missed generations carries all the
      lessons it missed, or the full refresh. */
  lemma MissedGenerationsAreTold(session: Session, s: State)
    requires UpToDate(session, s) && session.attached && session.thread.Some? && session.generation < s.generation
    ensures var (preface, told) := TurnInput(session, s);
            told.generation == s.generation &&
            (preface == FullRefresh || preface == Lessons(MissedLessons(s.lessons, session.generation, s.generation)))
  {
  }

  /** The missed lessons are exactly the stored ones of the generations in between, each once. */
  lemma {:induction false} MissedLessonsComplete(lessons: map<nat, string>, seen: nat, upTo: nat)
    ensures forall g | seen < g <= upTo && g in lessons :: lessons[g] in MissedLessons(lessons, seen, upTo)
    ensures forall text | text in MissedLessons(lessons, seen, upTo) ::
              exists g :: seen < g <= upTo && g in lessons && lessons[g] == text
    ensures (forall g | seen < g <= upTo :: g in lessons) && seen <= upTo ==>
              |MissedLessons(lessons, seen, upTo)| == upTo - seen
    decreases upTo
  {
    if seen < upTo {
      MissedLessonsComplete(lessons, seen, upTo - 1);
    }
  }

  /** Of missed generations the agent is told the lessons themselves exactly if there are some, at most
      three, and not too long together; otherwise it gets the full refresh. */
  lemma LessonsToldExactly(session: Session, s: State)
    requires session.dirty && session.thread.Some? && session.generation < s.generation
    ensures var missed := MissedLessons(s.lessons, session.generation, s.generation);
            TurnInput(session, s).0 ==
            if 1 <= |missed| <= 3 && TotalChars(missed) <= 6_000 then Lessons(missed) else FullRefresh
  {
  }

  // ---------------------------------------------------------------- what a sleep leaves behind

  /** The latest deadline has been attempted, or a sleep was answered at or after it. */
  predicate DeadlineServed(s: State, now: int, hour: nat) {
    (s.lastAttempted.Some? && s.lastAttempted.value >= LatestDeadline(now, hour)) ||
    (s.lastScheduled.Some? && s.lastScheduled.value >= LatestDeadline(now, hour))
  }

  /** No deadline is passed over: after an automatic check that has work, the latest one is served; and
      while it is served no automatic check fires. */
  lemma DeadlinesAreServed(s: State, c: Check, hour: nat)
    requires c.automatic
    ensures c.work ==> DeadlineServed(Checked(s, c, hour), c.now, hour)
    ensures DeadlineServed(s, c.now, hour) ==> Checked(s, c, hour) == s
  {
  }

  /** An answered sleep begins the next generation with its lesson and keeps all earlier ones; one that
      is not answered is an attempt only. Attached sessions alone are marked. */
  lemma SleepAddsLesson(sessions: Sessions, s: State, now: int, hour: nat, lesson: Option<string>)
    requires forall g | g in s.lessons :: g <= s.generation
    ensures var t := Slept(s, now, hour, lesson);
            && (forall g | g in s.lessons :: g in t.lessons && t.lessons[g] == s.lessons[g])
            && (forall g | g in t.lessons :: g <= t.generation)
            && t.lastAttempted == Some(LatestDeadline(now, hour))
            && (if lesson.Some? then t.generation == s.generation + 1 && t.generation in t.lessons &&
                                     t.lessons[t.generation] == lesson.value && t.lastScheduled == t.lastAttempted
                else t.generation == s.generation && t.lastScheduled == s.lastScheduled)
    ensures forall id | id in sessions && !sessions[id].attached :: Marked(sessions, lesson)[id] == sessions[id]
  {
  }

  // ---------------------------------------------------------------- the imperative form

  class Sleeper {
    var state: State
    const store: Store

    constructor (store: Store)
      ensures this.store == store && state == State(None, None, 0, map[])
    {
      this.store := store;
      state := State(None, None, 0, map[]);
    }

    /** `run_sleep`, without the agent: `lesson` is what it wrote, if it answered. The state is
        saved before the agent runs and again after the sessions are marked. */
    method RunSleep(now: int, hour: nat, lesson: Option<string>)
      requires store.Valid()
      modifies this`state, store
      ensures state == Slept(old(state), now, hour, lesson)
      ensures store.Valid() && store.sessions == Marked(old(store.sessions), lesson)
      ensures old(CleanMeansCurrent(store.sessions, state)) ==> CleanMeansCurrent(store.sessions, state)
    {
      ghost var before, was := store.sessions, state;
      if CleanMeansCurrent(before, was) { SleepKeepsCurrent(before, was, now, hour, lesson); }
      var deadline := LatestDeadline(now, hour);
      state := state.(lastAttempted := Some(deadline));
      if lesson.None? {
        return;
      }
      var next := state.generation + 1;
      var todo := store.sessions.Keys;
      while todo != {}
        invariant todo <= before.Keys && store.sessions.Keys == before.Keys && store.Valid()
        invariant state == was.(lastAttempted := Some(deadline))
        invariant forall id | id in before ::
                    store.sessions[id] == if id in todo then before[id] else Marked(before, lesson)[id]
      {
        var id :| id in todo;
        todo := todo - {id};
        if store.sessions[id].attached {
          SaveInPlace(store.sessions, id, store.sessions[id].(dirty := true));
          store.sessions := store.sessions[id := store.sessions[id].(dirty := true)];
        }
      }
      state := State(Some(deadline), Some(deadline), next, state.lessons[next := lesson.value]);
    }
  }
}
