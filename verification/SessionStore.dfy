/** The session store: an object that updates the table of sessions in place, and the invariants
    that its operations keep together. */
module SessionStore {
  import opened Options
  import opened SessionRecords

  // ---------------------------------------------------------------- the invariants

  ghost predicate TurnsHaveThreads(sessions: Sessions) {
    forall id | id in sessions :: TurnHasThread(sessions[id])
  }

  ghost predicate ShareSlot(sessions: Sessions, i: SessionId, j: SessionId) {
    i in sessions && j in sessions && i != j && sessions[i].attached && sessions[j].attached &&
    sessions[i].slot == sessions[j].slot
  }

  /** At most one session is attached per chat and topic, or local channel. */
  ghost predicate OneAttachedPerSlot(sessions: Sessions) {
    forall i, j :: !ShareSlot(sessions, i, j)
  }

  predicate AttachedAt(s: Session, slot: Slot) {
    s.attached && s.slot == slot
  }

  // ---------------------------------------------------------------- what the operations do

  function Detached(sessions: Sessions, slot: Slot): Sessions {
    map id | id in sessions :: if sessions[id].slot == slot then sessions[id].(attached := false) else sessions[id]
  }

  function Pruned(sessions: Sessions, kept: set<SessionId>): Sessions {
    map id | id in sessions && (id in kept || !IsPrunable(sessions[id])) :: sessions[id]
  }

  function CreatedNew(sessions: Sessions, slot: Slot, newId: SessionId, referenced: set<SessionId>, now: int): Sessions {
    Pruned(Detached(sessions, slot), referenced)[newId := NewSession(slot, now)]
  }

  function Recovering(s: Session): Session {
    if s.status == RunningTurn && s.active.Some? then s.(status := RecoveringTurn) else s
  }

  class Store {
    var sessions: Sessions

    ghost predicate Valid()
      reads this
    {
      TurnsHaveThreads(sessions) && OneAttachedPerSlot(sessions)
    }

    constructor ()
      ensures Valid() && sessions == map[]
    {
      sessions := map[];
    }

    /** `save_session`. Whatever record is saved, its turn has a thread afterwards; and one session
        per slot stays attached exactly when the caller does not attach a second one. */
    method SaveSession(id: SessionId, s: Session)
      requires Valid()
      modifies this
      ensures sessions == Saved(old(sessions), id, s)
      ensures TurnsHaveThreads(sessions)
      ensures OneAttachedPerSlot(sessions) <==>
              !(s.attached && exists j :: j in old(sessions) && j != id && AttachedAt(old(sessions)[j], s.slot))
    {
      SaveKeepsSlotsExactly(sessions, id, s);
      var stabilized := s;
      if id in sessions && stabilized.active.Some? && stabilized.thread.None? {
        stabilized := stabilized.(thread := sessions[id].thread);
      }
      if stabilized.active.Some? && stabilized.thread.None? {
        stabilized := stabilized.(active := None);
        if stabilized.status == RunningTurn {
          stabilized := stabilized.(status := Active);
        }
      }
      sessions := sessions[id := stabilized];
    }

    /** The attached session of a slot, a writable one if there is any; otherwise a new one. */
    method GetOrCreate(slot: Slot, newId: SessionId, now: int) returns (id: SessionId)
      requires Valid() && newId !in sessions
      modifies this
      ensures Valid() && id in sessions && AttachedAt(sessions[id], slot)
      ensures (exists j :: j in sessions && AttachedAt(sessions[j], slot) && IsWritable(sessions[j])) ==> IsWritable(sessions[id])
      ensures if exists j :: j in old(sessions) && AttachedAt(old(sessions)[j], slot)
              then sessions == old(sessions)
              else id == newId && sessions == old(sessions)[newId := NewSession(slot, now)]
    {
      var matching := set j | j in sessions && AttachedAt(sessions[j], slot);
      var writable := set j | j in matching && IsWritable(sessions[j]);
      assert forall j | j in sessions && AttachedAt(sessions[j], slot) && IsWritable(sessions[j]) :: j in writable;
      if writable != {} {
        id :| id in writable;
        assert AttachedAt(sessions[id], slot);
      } else if matching != {} {
        id :| id in matching;
        assert AttachedAt(sessions[id], slot);
      } else {
        assert forall j | j in sessions :: AttachedAt(sessions[j], slot) ==> j in matching;
        id := newId;
        SaveSession(id, NewSession(slot, now));
      }
    }

    /** `create_new_*_session`: detaches what holds the slot, prunes, and attaches a new session. */
    method CreateNew(slot: Slot, newId: SessionId, referenced: set<SessionId>, now: int)
      requires Valid() && newId !in sessions
      modifies this
      ensures Valid() && sessions == CreatedNew(old(sessions), slot, newId, referenced, now)
    {
      CreateKeepsInvariants(sessions, slot, newId, referenced, now);
      DetachSlot(slot);
      Prune(referenced);
      sessions := Saved(sessions, newId, NewSession(slot, now));
    }

    method DetachSlot(slot: Slot)
      requires Valid()
      modifies this
      ensures sessions == Detached(old(sessions), slot)
    {
      ghost var before := sessions;
      var todo := set j | j in sessions && sessions[j].slot == slot;
      while todo != {}
        invariant todo <= before.Keys && sessions.Keys == before.Keys
        invariant forall j | j in before ::
                    sessions[j] == if before[j].slot == slot && j !in todo then before[j].(attached := false)
                                   else before[j]
        invariant forall j | j in todo :: before[j].slot == slot
      {
        var j :| j in todo;
        todo := todo - {j};
        assert TurnHasThread(before[j]);
        StabilizeKeeps(before[j].(attached := false), Some(before[j]));
        sessions := Saved(sessions, j, sessions[j].(attached := false));
      }
    }

    /** Deletes the detached sessions without turn and pending output that nothing refers to. */
    method Prune(referenced: set<SessionId>)
      modifies this
      ensures sessions == Pruned(old(sessions), referenced)
      ensures forall id | id in old(sessions) && id !in sessions ::
                !old(sessions)[id].attached && old(sessions)[id].active.None? && old(sessions)[id].pending == "" &&
                id !in referenced
    {
      var prunable := set id | id in sessions && IsPrunable(sessions[id]);
      sessions := map id | id in sessions && !(id in prunable && id !in referenced) :: sessions[id];
    }

    /** `append_pending_output` */
    method AppendPending(id: SessionId, text: string, now: int)
      requires Valid() && id in sessions
      modifies this
      ensures Valid()
      ensures sessions == if text == "" then old(sessions)
                          else old(sessions)[id := old(sessions)[id].(pending := old(sessions)[id].pending + text, pendingAt := Some(now))]
    {
      if text != "" {
        var s := sessions[id].(pending := sessions[id].pending + text, pendingAt := Some(now));
        SaveInPlace(sessions, id, s);
        SaveSession(id, s);
      }
    }

    /** `consume_pending_output` */
    method ConsumePending(id: SessionId) returns (text: string)
      requires Valid() && id in sessions
      modifies this
      ensures Valid() && text == old(sessions)[id].pending
      ensures sessions == old(sessions)[id := old(sessions)[id].(pending := "", pendingAt := None)]
    {
      text := sessions[id].pending;
      var s := sessions[id].(pending := "", pendingAt := None);
      SaveInPlace(sessions, id, s);
      SaveSession(id, s);
    }

    /** `mark_recovering_turns` */
    method MarkRecovering() returns (recovering: set<SessionId>)
      requires Valid()
      modifies this
      ensures Valid() && sessions == map id | id in old(sessions) :: Recovering(old(sessions)[id])
      ensures recovering == set id | id in sessions && sessions[id] != old(sessions)[id]
    {
      ghost var before := sessions;
      recovering := set id | id in sessions && sessions[id].status == RunningTurn && sessions[id].active.Some?;
      sessions := map id | id in sessions ::
        if id in recovering then sessions[id].(status := RecoveringTurn) else sessions[id];
      forall i, j ensures !ShareSlot(sessions, i, j) { assert !ShareSlot(before, i, j); }
    }
  }

  // ---------------------------------------------------------------- why the invariants hold

  /** Saving keeps one attached session per slot if and only if the caller does not attach a
      session where another one is attached. */
  lemma SaveKeepsSlotsExactly(sessions: Sessions, id: SessionId, s: Session)
    requires OneAttachedPerSlot(sessions)
    ensures OneAttachedPerSlot(Saved(sessions, id, s)) <==>
            !(s.attached && exists j :: j in sessions && j != id && AttachedAt(sessions[j], s.slot))
  {
    var t := Saved(sessions, id, s);
    if j :| s.attached && j in sessions && j != id && AttachedAt(sessions[j], s.slot) {
      assert ShareSlot(t, id, j);
    } else {
      forall i, j ensures !ShareSlot(t, i, j) {
        assert !ShareSlot(sessions, i, j);
        if i in sessions { assert i == id || !AttachedAt(sessions[i], s.slot) || !s.attached; }
        if j in sessions { assert j == id || !AttachedAt(sessions[j], s.slot) || !s.attached; }
      }
    }
  }

  /** A record that keeps its slot, does not attach itself anew and has a thread for its turn is
      stored as it is, and keeps the invariants. */
  lemma SaveInPlace(sessions: Sessions, id: SessionId, s: Session)
    requires TurnsHaveThreads(sessions) && OneAttachedPerSlot(sessions)
    requires id in sessions && s.slot == sessions[id].slot && (s.attached ==> sessions[id].attached) && TurnHasThread(s)
    ensures Saved(sessions, id, s) == sessions[id := s]
    ensures TurnsHaveThreads(sessions[id := s]) && OneAttachedPerSlot(sessions[id := s])
  {
    StabilizeKeeps(s, Some(sessions[id]));
    SaveKeepsSlotsExactly(sessions, id, s);
    forall j | j in sessions && j != id && s.attached ensures !AttachedAt(sessions[j], s.slot) {
      assert !ShareSlot(sessions, id, j);
    }
  }

  lemma CreateKeepsInvariants(sessions: Sessions, slot: Slot, newId: SessionId, referenced: set<SessionId>, now: int)
    requires TurnsHaveThreads(sessions) && OneAttachedPerSlot(sessions) && newId !in sessions
    ensures var t := CreatedNew(sessions, slot, newId, referenced, now);
            TurnsHaveThreads(t) && OneAttachedPerSlot(t) && AttachedAt(t[newId], slot) &&
            forall id | id in sessions && AttachedAt(sessions[id], slot) :: id in t ==> !t[id].attached
  {
    var t := CreatedNew(sessions, slot, newId, referenced, now);
    forall i, j ensures !ShareSlot(t, i, j) { assert !ShareSlot(sessions, i, j); }
  }

  // ---------------------------------------------------------------- runs of store operations

  /** An operation of the store. `Save` stands for every caller that changed a record. */
  datatype Op =
    | Obtain(slot: Slot, newId: SessionId, now: int)
    | Create(slot: Slot, newId: SessionId, referenced: set<SessionId>, now: int)
    | Save(id: SessionId, record: Session)
    | PruneAll(referenced: set<SessionId>)
    | MarkAll

  /** New ids are new, and a caller that saves a record changes neither its slot nor attaches it. */
  ghost predicate Allowed(sessions: Sessions, op: Op) {
    match op
    case Obtain(_, newId, _) => newId !in sessions
    case Create(_, newId, _, _) => newId !in sessions
    case Save(id, record) =>
      id in sessions && record.slot == sessions[id].slot && (record.attached ==> sessions[id].attached)
    case _ => true
  }

  ghost function Perform(sessions: Sessions, op: Op): Sessions {
    match op
    case Obtain(slot, newId, now) =>
      if exists j :: j in sessions && AttachedAt(sessions[j], slot) then sessions
      else sessions[newId := NewSession(slot, now)]
    case Create(slot, newId, referenced, now) => CreatedNew(sessions, slot, newId, referenced, now)
    case Save(id, record) => Saved(sessions, id, record)
    case PruneAll(referenced) => Pruned(sessions, referenced)
    case MarkAll => map id | id in sessions :: Recovering(sessions[id])
  }

  ghost predicate AllowedRun(sessions: Sessions, ops: seq<Op>)
    decreases |ops|
  {
    ops != [] ==> Allowed(sessions, ops[0]) && AllowedRun(Perform(sessions, ops[0]), ops[1..])
  }

  ghost function PerformAll(sessions: Sessions, ops: seq<Op>): Sessions
    decreases |ops|
  {
    if ops == [] then sessions else PerformAll(Perform(sessions, ops[0]), ops[1..])
  }

  lemma OpKeepsInvariants(sessions: Sessions, op: Op)
    requires TurnsHaveThreads(sessions) && OneAttachedPerSlot(sessions) && Allowed(sessions, op)
    ensures TurnsHaveThreads(Perform(sessions, op)) && OneAttachedPerSlot(Perform(sessions, op))
  {
    var t := Perform(sessions, op);
    match op {
      case Create(slot, newId, referenced, now) => CreateKeepsInvariants(sessions, slot, newId, referenced, now);
      case Save(id, record) =>
        SaveKeepsSlotsExactly(sessions, id, record);
        StabilizeKeeps(record, Stored(sessions, id));
        forall j | j in sessions && j != id && record.attached ensures !AttachedAt(sessions[j], record.slot) {
          assert !ShareSlot(sessions, id, j);
        }
      case _ => forall i, j ensures !ShareSlot(t, i, j) { assert !ShareSlot(sessions, i, j); }
    }
  }

  /** Under any sequence of store operations, every active turn has a thread and every slot has at
      most one attached session. */
  lemma {:induction false} InvariantsOverRuns(sessions: Sessions, ops: seq<Op>)
    requires TurnsHaveThreads(sessions) && OneAttachedPerSlot(sessions) && AllowedRun(sessions, ops)
    ensures TurnsHaveThreads(PerformAll(sessions, ops)) && OneAttachedPerSlot(PerformAll(sessions, ops))
    decreases |ops|
  {
    if ops != [] {
      OpKeepsInvariants(sessions, ops[0]);
      InvariantsOverRuns(Perform(sessions, ops[0]), ops[1..]);
    }
  }

  /** An operation removes a session exactly if it creates another one or prunes, the session has no
      turn, no pending output and no reference, and it is detached, if only by that very operation,
      which then creates the slot's new session. */
  lemma RemovedExactly(sessions: Sessions, op: Op, id: SessionId)
    requires Allowed(sessions, op) && id in sessions
    ensures id !in Perform(sessions, op) <==>
            (op.Create? || op.PruneAll?) && id !in op.referenced && sessions[id].active.None? && sessions[id].pending == "" &&
            (sessions[id].attached ==> op.Create? && sessions[id].slot == op.slot)
  {
  }

  /** Marking touches the status only, and exactly of sessions in a running turn. */
  lemma MarkedExactly(sessions: Sessions, id: SessionId)
    requires id in sessions
    ensures var s, t := sessions[id], Perform(sessions, MarkAll);
            id in t && t[id] == s.(status := t[id].status) &&
            (t[id].status != s.status <==> s.status == RunningTurn && s.active.Some?) &&
            (t[id].status != s.status ==> t[id].status == RecoveringTurn)
  {
  }
}
