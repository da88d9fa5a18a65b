/** Requesters, the reader, the pump, the drainer and the server on one live connection, as
    interleaved steps. */
module RpcRuns {
  import opened Options
  import opened JsonRpc
  import opened Trim

  /** How far a call of `request` is. `Reading` is between the two statements of `_allocate_id`. */
  datatype Phase =
    | Reading
    | Allocated
    | Waitable
    | Waiting
    | Got(line: Line)
    | Expired
    | Done(outcome: Option<Line>)

  datatype Call = Call(id: int, phase: Phase)

  datatype System = System(
    client: Client,
    calls: map<CallId, Call>,
    reader: Option<(CallId, Line)>,
    pumpHand: Option<Note>,
    pumpQueue: seq<Note>,
    // The server: requests it has not answered, and lines that the reader has not read.
    unanswered: set<CallId>,
    wire: seq<Line>,
    // History: the notifications the server has sent, and those the service has handled.
    sent: seq<Note>,
    handled: seq<Note>)

  datatype Step =
    | ReadId(call: CallId)
    | BumpId(call: CallId)
    | Register(call: CallId)
    | Send(call: CallId)
    | Answer(call: CallId, body: Body)
    | Notify(note: Note)
    | Ask(asked: Asked)
    | Blank
    | ReadLine
    | PutLine
    | Receive(call: CallId)
    | Expire(call: CallId)
    | Finish(call: CallId)
    | Poll
    | Push
    | Handle

  predicate InPhase(s: System, call: CallId, phase: Phase) {
    call in s.calls && s.calls[call].phase == phase
  }

  predicate HasAnswer(s: System, call: CallId) {
    call in s.client.boxes && s.client.boxes[call].Some?
  }

  predicate Enabled(s: System, step: Step) {
    match step
    case ReadId(call) => call !in s.calls
    case BumpId(call) => InPhase(s, call, Reading)
    case Register(call) => InPhase(s, call, Allocated)
    case Send(call) => InPhase(s, call, Waitable)
    case Answer(call, _) => call in s.unanswered && call in s.calls
    case ReadLine => s.reader.None? && s.wire != []
    case PutLine => s.reader.Some? && !HasAnswer(s, s.reader.value.0)
    case Receive(call) => InPhase(s, call, Waiting) && HasAnswer(s, call)
    case Expire(call) => InPhase(s, call, Waiting) && !HasAnswer(s, call)
    case Finish(call) => call in s.calls && (s.calls[call].phase.Got? || s.calls[call].phase.Expired?)
    case Poll => s.pumpHand.None? && s.client.notifications != []
    case Push => s.pumpHand.Some? && |s.pumpQueue| < CODEX_NOTIFICATION_QUEUE_MAX_SIZE
    case Handle => s.pumpQueue != []
    case _ => true
  }

  function Moved(s: System, call: CallId, phase: Phase): System
    requires call in s.calls
  {
    s.(calls := s.calls[call := s.calls[call].(phase := phase)])
  }

  function Apply(s: System, step: Step): System
    requires Enabled(s, step)
  {
    match step
    case ReadId(call) => s.(calls := s.calls[call := Call(s.client.nextId, Reading)])
    case BumpId(call) => Moved(s, call, Allocated).(client := s.client.(nextId := s.client.nextId + 1))
    case Register(call) => Moved(s, call, Waitable).(client := Registered(s.client, s.calls[call].id, call))
    case Send(call) => Moved(s, call, Waiting).(unanswered := s.unanswered + {call})
    case Answer(call, body) =>
      s.(unanswered := s.unanswered - {call}, wire := s.wire + [Response(s.calls[call].id, body, call)])
    case Notify(note) => s.(wire := s.wire + [Notification(note)], sent := s.sent + [note])
    case Ask(asked) => s.(wire := s.wire + [Request(asked)])
    case Blank => s.(wire := s.wire + [NoId])
    case ReadLine =>
      var line := s.wire[0];
      var target := Addressee(s.client, line);
      s.(wire := s.wire[1..], client := Dispatched(s.client, line),
         reader := if target.None? then None else Some((target.value, line)))
    case PutLine => s.(client := Delivered(s.client, s.reader.value.0, s.reader.value.1), reader := None)
    case Receive(call) => Moved(s, call, Got(s.client.boxes[call].value)).(client := Emptied(s.client, call))
    case Expire(call) => Moved(s, call, Expired)
    case Finish(call) =>
      var phase := s.calls[call].phase;
      Moved(s, call, Done(if phase.Got? then Some(phase.line) else None))
        .(client := Unregistered(s.client, s.calls[call].id))
    case Poll =>
      s.(pumpHand := Some(s.client.notifications[0]),
         client := s.client.(notifications := s.client.notifications[1..]))
    case Push => s.(pumpQueue := s.pumpQueue + [s.pumpHand.value], pumpHand := None)
    case Handle => s.(handled := s.handled + [s.pumpQueue[0]], pumpQueue := s.pumpQueue[1..])
  }

  const INITIAL := System(NEW_CLIENT, map[], None, None, [], {}, [], [], [])

  /** These steps can be taken from `s` one after the other. */
  predicate Runs(s: System, steps: seq<Step>)
    decreases |steps|
  {
    steps == [] || (Enabled(s, steps[0]) && Runs(Apply(s, steps[0]), steps[1..]))
  }

  function Last(s: System, steps: seq<Step>): System
    requires Runs(s, steps)
    decreases |steps|
  {
    if steps == [] then s else Last(Apply(s, steps[0]), steps[1..])
  }

  // ---------------------------------------------------------------- notifications

  function NoteOn(line: Line): seq<Note> {
    if line.Notification? then [line.note] else []
  }

  function NotesOn(wire: seq<Line>): seq<Note> {
    if wire == [] then [] else NoteOn(wire[0]) + NotesOn(wire[1..])
  }

  lemma {:induction false} NotesOnAdded(wire: seq<Line>, line: Line)
    ensures NotesOn(wire + [line]) == NotesOn(wire) + NoteOn(line)
  {
    if wire == [] {
      assert wire + [line] == [line];
    } else {
      assert (wire + [line])[1..] == wire[1..] + [line];
      NotesOnAdded(wire[1..], line);
      Associate(NoteOn(wire[0]), NotesOn(wire[1..]), NoteOn(line));
    }
  }

  function Underway(s: System): seq<Note> {
    s.pumpQueue + Hand(s.pumpHand) + (s.client.notifications + NotesOn(s.wire))
  }

  /** Every notification sent is handled or underway, in order. */
  predicate InOrder(s: System) {
    s.sent == s.handled + Underway(s) && |s.pumpQueue| <= CODEX_NOTIFICATION_QUEUE_MAX_SIZE
  }

  lemma WireKeepsOrder(s: System, line: Line)
    requires InOrder(s)
    ensures s.sent + NoteOn(line) == s.handled + Underway(s.(wire := s.wire + [line]))
  {
    NotesOnAdded(s.wire, line);
    var front := s.pumpQueue + Hand(s.pumpHand);
    Associate(s.client.notifications, NotesOn(s.wire), NoteOn(line));
    Associate(front, s.client.notifications + NotesOn(s.wire), NoteOn(line));
    Associate(s.handled, Underway(s), NoteOn(line));
  }

  lemma ReadKeepsUnderway(s: System)
    requires Enabled(s, ReadLine)
    ensures Underway(Apply(s, ReadLine)) == Underway(s)
  {
    var line := s.wire[0];
    Associate(s.client.notifications, NoteOn(line), NotesOn(s.wire[1..]));
    assert Dispatched(s.client, line).notifications == s.client.notifications + NoteOn(line);
  }

  lemma PollKeepsUnderway(s: System)
    requires Enabled(s, Poll)
    ensures Underway(Apply(s, Poll)) == Underway(s)
  {
    var notes := s.client.notifications;
    Associate([notes[0]], notes[1..], NotesOn(s.wire));
    assert notes == [notes[0]] + notes[1..];
    Associate(s.pumpQueue, [notes[0]], notes[1..] + NotesOn(s.wire));
    assert s.pumpQueue + Hand(None) == s.pumpQueue;
  }

  lemma PushKeepsUnderway(s: System)
    requires Enabled(s, Push)
    ensures Underway(Apply(s, Push)) == Underway(s)
  {
    var queue := s.pumpQueue + [s.pumpHand.value];
    assert queue + Hand(None) == queue;
  }

  lemma HandleKeepsOrder(s: System)
    requires InOrder(s) && Enabled(s, Handle)
    ensures InOrder(Apply(s, Handle))
  {
    var first, rest := [s.pumpQueue[0]], s.pumpQueue[1..];
    var later := s.client.notifications + NotesOn(s.wire);
    assert s.pumpQueue == first + rest;
    Associate(first, rest, Hand(s.pumpHand));
    Associate(first, rest + Hand(s.pumpHand), later);
    Associate(s.handled, first, rest + Hand(s.pumpHand) + later);
  }

  lemma StepKeepsOrder(s: System, step: Step)
    requires InOrder(s) && Enabled(s, step)
    ensures InOrder(Apply(s, step))
  {
    match step
    case Answer(call, body) => WireKeepsOrder(s, Response(s.calls[call].id, body, call));
    case Notify(note) => WireKeepsOrder(s, Notification(note));
    case Ask(asked) => WireKeepsOrder(s, Request(asked));
    case Blank => WireKeepsOrder(s, NoId);
    case ReadLine => ReadKeepsUnderway(s);
    case Poll => PollKeepsUnderway(s);
    case Push => PushKeepsUnderway(s);
    case Handle => HandleKeepsOrder(s);
    case _ =>
  }

  lemma {:induction false} RunKeepsOrder(s: System, steps: seq<Step>)
    requires InOrder(s) && Runs(s, steps)
    ensures InOrder(Last(s, steps))
    decreases |steps|
  {
    if steps != [] {
      StepKeepsOrder(s, steps[0]);
      RunKeepsOrder(Apply(s, steps[0]), steps[1..]);
    }
  }

  /** Whatever the interleaving, what the service has handled, followed by the pump's queue, the one
      in the pump's hand, the client's queue and the wire, is what the server has sent; and the
      pump's queue is never over its size. */
  lemma NotificationsArriveInOrder(steps: seq<Step>)
    requires Runs(INITIAL, steps)
    ensures var s := Last(INITIAL, steps);
            && s.sent == s.handled + (s.pumpQueue + Hand(s.pumpHand) + (s.client.notifications + NotesOn(s.wire)))
            && |s.pumpQueue| <= CODEX_NOTIFICATION_QUEUE_MAX_SIZE
  {
    RunKeepsOrder(INITIAL, steps);
  }

  // ---------------------------------------------------------------- requests of the server

  function AskedOn(wire: seq<Line>): seq<Asked> {
    if wire == [] then [] else (if wire[0].Request? then [wire[0].asked] else []) + AskedOn(wire[1..])
  }

  lemma AskedOnConcat(wire: seq<Line>, more: seq<Line>)
    ensures AskedOn(wire + more) == AskedOn(wire) + AskedOn(more)
  {
    if wire == [] {
      assert wire + more == more;
    } else {
      assert (wire + more)[1..] == wire[1..] + more;
      AskedOnConcat(wire[1..], more);
    }
  }

  function AskedBy(step: Step): seq<Asked> {
    if step.Ask? then [step.asked] else []
  }

  function AskedAlong(steps: seq<Step>): seq<Asked> {
    if steps == [] then [] else AskedBy(steps[0]) + AskedAlong(steps[1..])
  }

  /** The server's requests that are not answered yet, oldest first. */
  function Unserved(s: System): seq<Asked> {
    s.client.requests + AskedOn(s.wire)
  }

  lemma StepAsks(s: System, step: Step)
    requires Enabled(s, step)
    ensures Unserved(Apply(s, step)) == Unserved(s) + AskedBy(step)
  {
    var t := Apply(s, step);
    if step.ReadLine? {
      var first := if s.wire[0].Request? then [s.wire[0].asked] else [];
      assert t.client.requests == s.client.requests + first;
      Associate(s.client.requests, first, AskedOn(t.wire));
      assert Unserved(s) + [] == Unserved(s);
    } else if step.Answer? || step.Notify? || step.Ask? || step.Blank? {
      var line := t.wire[|s.wire|];
      assert t.wire == s.wire + [line] && [line][1..] == [];
      AskedOnConcat(s.wire, [line]);
      assert AskedOn([line]) == AskedBy(step) + [] == AskedBy(step);
      Associate(s.client.requests, AskedOn(s.wire), AskedBy(step));
    } else {
      assert Unserved(s) + [] == Unserved(s);
    }
  }

  /** Whatever the interleaving: the requests of the server wait for the service all and in order. */
  lemma {:induction false} RequestsArriveInOrder(s: System, steps: seq<Step>)
    requires Runs(s, steps)
    ensures Unserved(Last(s, steps)) == Unserved(s) + AskedAlong(steps)
    decreases |steps|
  {
    if steps != [] {
      StepAsks(s, steps[0]);
      RequestsArriveInOrder(Apply(s, steps[0]), steps[1..]);
      Associate(Unserved(s), AskedBy(steps[0]), AskedAlong(steps[1..]));
    } else {
      assert Unserved(s) + [] == Unserved(s);
    }
  }
}
