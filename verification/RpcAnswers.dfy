/** Which answer a call of `request` gets: its own and no other, provided that no two callers are
    inside `_allocate_id` at the same time. */
module RpcAnswers {
  import opened Options
  import opened JsonRpc
  import opened RpcRuns

  // ---------------------------------------------------------------- the invariant

  /** Ids grow: the one being read is the next one, all others are behind it. */
  predicate IdBehindNext(s: System, call: CallId)
    requires call in s.calls
  {
    if s.calls[call].phase == Reading then s.calls[call].id == s.client.nextId
    else s.calls[call].id < s.client.nextId
  }

  predicate IdsApart(s: System) {
    forall c, d | c in s.calls && d in s.calls && c != d :: s.calls[c].id != s.calls[d].id
  }

  predicate IdsOk(s: System) {
    IdsApart(s) && forall c | c in s.calls :: IdBehindNext(s, c)
  }

  predicate IsEarly(phase: Phase) {
    phase == Reading || phase == Allocated || phase == Waitable
  }

  predicate IsListed(phase: Phase) {
    phase == Waitable || phase == Waiting || phase.Got? || phase == Expired
  }

  /** The client's table leads from an id to the call with that id. */
  predicate PendingOwn(s: System, id: int)
    requires id in s.client.pending
  {
    s.client.pending[id] in s.calls && s.calls[s.client.pending[id]].id == id
  }

  /** From registration to the end, the call is found under its id. */
  predicate Listed(s: System, c: CallId)
    requires c in s.calls
  {
    IsListed(s.calls[c].phase) ==> s.calls[c].id in s.client.pending && s.client.pending[s.calls[c].id] == c
  }

  predicate PendingOk(s: System) {
    && (forall id | id in s.client.pending :: PendingOwn(s, id))
    && (forall c | c in s.calls :: Listed(s, c))
  }

  /** The line answers the request of this call, under the call's id. */
  predicate OwnLine(s: System, call: CallId, line: Line) {
    call in s.calls && line.Response? && line.about == call && line.id == s.calls[call].id
  }

  predicate WireOk(s: System) {
    forall i | 0 <= i < |s.wire| && s.wire[i].Response? :: OwnLine(s, s.wire[i].about, s.wire[i])
  }

  predicate BoxOk(s: System, call: CallId) {
    HasAnswer(s, call) ==> OwnLine(s, call, s.client.boxes[call].value)
  }

  predicate OutcomeOk(s: System, call: CallId)
    requires call in s.calls
  {
    match s.calls[call].phase
    case Got(line) => OwnLine(s, call, line)
    case Done(Some(line)) => OwnLine(s, call, line)
    case _ => true
  }

  predicate LinesOk(s: System) {
    && WireOk(s)
    && (s.reader.Some? ==> OwnLine(s, s.reader.value.0, s.reader.value.1))
    && (forall c | c in s.client.boxes :: BoxOk(s, c))
    && (forall c | c in s.calls :: OutcomeOk(s, c))
  }

  // Where the answer to a call can be: still with the server, on the wire, in the reader's hand, in
  // the call's queue, or received.

  function AboutCount(wire: seq<Line>, call: CallId): nat {
    if wire == [] then 0
    else (if wire[0].Response? && wire[0].about == call then 1 else 0) + AboutCount(wire[1..], call)
  }

  predicate WithServer(s: System, call: CallId) {
    call in s.unanswered
  }

  predicate InReader(s: System, call: CallId) {
    s.reader.Some? && s.reader.value.0 == call
  }

  predicate Received(s: System, call: CallId) {
    call in s.calls && (s.calls[call].phase.Got? || (s.calls[call].phase.Done? && s.calls[call].phase.outcome.Some?))
  }

  function One(b: bool): nat {
    if b then 1 else 0
  }

  function Places(s: System, call: CallId): nat {
    One(WithServer(s, call)) + AboutCount(s.wire, call) + One(InReader(s, call))
    + One(HasAnswer(s, call)) + One(Received(s, call))
  }

  /** A call that waits has its answer in exactly one place; none has it in two. */
  predicate PlacesOk(s: System, call: CallId) {
    if call !in s.calls || IsEarly(s.calls[call].phase) then Places(s, call) == 0
    else if s.calls[call].phase == Waiting then Places(s, call) == 1
    else Places(s, call) <= 1
  }

  ghost predicate Sound(s: System) {
    IdsOk(s) && PendingOk(s) && LinesOk(s) && forall c: CallId :: PlacesOk(s, c)
  }

  predicate SomeoneAllocates(s: System) {
    exists c | c in s.calls :: s.calls[c].phase == Reading
  }

  /** `_allocate_id` is not entered while another call is inside it. */
  predicate AllocatesAlone(s: System, step: Step) {
    step.ReadId? ==> !SomeoneAllocates(s)
  }

  predicate Atomic(s: System, steps: seq<Step>)
    requires Runs(s, steps)
    decreases |steps|
  {
    steps == [] || (AllocatesAlone(s, steps[0]) && Atomic(Apply(s, steps[0]), steps[1..]))
  }

  // ---------------------------------------------------------------- each step keeps it

  lemma StepKeepsIds(s: System, step: Step)
    requires IdsOk(s) && Enabled(s, step) && AllocatesAlone(s, step)
    ensures IdsOk(Apply(s, step))
  {
    var t := Apply(s, step);
    forall c | c in t.calls ensures IdBehindNext(t, c) {
      if c in s.calls { assert IdBehindNext(s, c); }
      if step.BumpId? && c != step.call { assert s.calls[c].id != s.calls[step.call].id; }
    }
    if step.ReadId? {
      forall c | c in s.calls ensures s.calls[c].id != s.client.nextId { assert IdBehindNext(s, c); }
    }
  }

  lemma StepKeepsPendingOwn(s: System, step: Step, id: int)
    requires PendingOk(s) && Enabled(s, step) && id in Apply(s, step).client.pending
    ensures PendingOwn(Apply(s, step), id)
  {
    if id in s.client.pending { assert PendingOwn(s, id); }
  }

  lemma StepKeepsListed(s: System, step: Step, c: CallId)
    requires IdsApart(s) && PendingOk(s) && Enabled(s, step) && c in Apply(s, step).calls
    ensures Listed(Apply(s, step), c)
  {
    if c in s.calls { assert Listed(s, c); }
  }

  lemma StepKeepsPending(s: System, step: Step)
    requires IdsOk(s) && PendingOk(s) && Enabled(s, step)
    ensures PendingOk(Apply(s, step))
  {
    forall id | id in Apply(s, step).client.pending ensures PendingOwn(Apply(s, step), id) {
      StepKeepsPendingOwn(s, step, id);
    }
    forall c | c in Apply(s, step).calls ensures Listed(Apply(s, step), c) {
      StepKeepsListed(s, step, c);
    }
  }

  lemma StepKeepsWire(s: System, step: Step)
    requires LinesOk(s) && Enabled(s, step)
    ensures WireOk(Apply(s, step))
  {
  }

  lemma StepKeepsReader(s: System, step: Step)
    requires LinesOk(s) && PendingOk(s) && IdsOk(s) && Enabled(s, step)
    ensures var t := Apply(s, step); t.reader.Some? ==> OwnLine(t, t.reader.value.0, t.reader.value.1)
  {
  }

  lemma StepKeepsBoxes(s: System, step: Step, c: CallId)
    requires LinesOk(s) && Enabled(s, step)
    ensures BoxOk(Apply(s, step), c)
  {
  }

  lemma StepKeepsOutcomes(s: System, step: Step, c: CallId)
    requires LinesOk(s) && Enabled(s, step) && c in Apply(s, step).calls
    ensures OutcomeOk(Apply(s, step), c)
  {
  }

  lemma {:induction false} AboutCountAdded(wire: seq<Line>, line: Line, call: CallId)
    ensures AboutCount(wire + [line], call) == AboutCount(wire, call) + One(line.Response? && line.about == call)
  {
    if wire == [] {
      assert wire + [line] == [line];
    } else {
      assert (wire + [line])[1..] == wire[1..] + [line];
      AboutCountAdded(wire[1..], line, call);
    }
  }

  /** The reader finds the call that a response is about, unless the call is over. */
  lemma ReadKeepsPlaces(s: System, c: CallId)
    requires Sound(s) && Enabled(s, ReadLine)
    ensures PlacesOk(Apply(s, ReadLine), c)
  {
    var line, t := s.wire[0], Apply(s, ReadLine);
    assert PlacesOk(s, c);
    assert AboutCount(s.wire, c) == One(line.Response? && line.about == c) + AboutCount(s.wire[1..], c);
    assert HasAnswer(t, c) == HasAnswer(s, c) && Received(t, c) == Received(s, c);
    if line.Response? {
      assert OwnLine(s, line.about, line);
      if line.id in s.client.pending { assert PendingOwn(s, line.id); }
      if c == line.about && c in s.calls { assert Listed(s, c); }
    }
  }

  lemma WireStepKeepsPlaces(s: System, step: Step, c: CallId)
    requires PlacesOk(s, c) && Enabled(s, step)
    requires IsWireStep(step)
    ensures PlacesOk(Apply(s, step), c)
  {
    var line := match step
      case Answer(call, body) => Response(s.calls[call].id, body, call)
      case Notify(note) => Notification(note)
      case Ask(asked) => Request(asked)
      case _ => NoId;
    AboutCountAdded(s.wire, line, c);
  }

  predicate IsWireStep(step: Step) {
    step.Answer? || step.Notify? || step.Ask? || step.Blank?
  }

  predicate IsPumpStep(step: Step) {
    step.Poll? || step.Push? || step.Handle?
  }

  lemma CallStepKeepsPlaces(s: System, step: Step, c: CallId)
    requires PlacesOk(s, c) && Enabled(s, step)
    requires !IsWireStep(step) && !IsPumpStep(step) && !step.ReadLine?
    ensures PlacesOk(Apply(s, step), c)
  {
    assert Apply(s, step).wire == s.wire;
  }

  lemma StepKeepsPlaces(s: System, step: Step, c: CallId)
    requires Sound(s) && Enabled(s, step)
    ensures PlacesOk(Apply(s, step), c)
  {
    assert PlacesOk(s, c);
    if step.ReadLine? {
      ReadKeepsPlaces(s, c);
    } else if IsWireStep(step) {
      WireStepKeepsPlaces(s, step, c);
    } else if IsPumpStep(step) {
      assert Places(Apply(s, step), c) == Places(s, c);
    } else {
      CallStepKeepsPlaces(s, step, c);
    }
  }

  lemma StepKeepsLines(s: System, step: Step)
    requires Sound(s) && Enabled(s, step)
    ensures LinesOk(Apply(s, step))
  {
    StepKeepsWire(s, step);
    StepKeepsReader(s, step);
    forall c | c in Apply(s, step).client.boxes ensures BoxOk(Apply(s, step), c) { StepKeepsBoxes(s, step, c); }
    forall c | c in Apply(s, step).calls ensures OutcomeOk(Apply(s, step), c) { StepKeepsOutcomes(s, step, c); }
  }

  lemma StepKeepsSound(s: System, step: Step)
    requires Sound(s) && Enabled(s, step) && AllocatesAlone(s, step)
    ensures Sound(Apply(s, step))
  {
    StepKeepsIds(s, step);
    StepKeepsPending(s, step);
    StepKeepsLines(s, step);
    forall c: CallId ensures PlacesOk(Apply(s, step), c) { StepKeepsPlaces(s, step, c); }
  }

  lemma {:induction false} RunKeepsSound(s: System, steps: seq<Step>)
    requires Sound(s) && Runs(s, steps) && Atomic(s, steps)
    ensures Sound(Last(s, steps))
    decreases |steps|
  {
    if steps != [] {
      StepKeepsSound(s, steps[0]);
      RunKeepsSound(Apply(s, steps[0]), steps[1..]);
    }
  }

  // ---------------------------------------------------------------- finished calls are forgotten

  /** What is registered belongs to calls that are not over. */
  predicate RegisteredLive(s: System, id: int) {
    id in s.client.pending ==> s.client.pending[id] in s.calls && IsListed(s.calls[s.client.pending[id]].phase)
  }

  lemma StepKeepsRegisteredLive(s: System, step: Step, id: int)
    requires Sound(s) && Enabled(s, step) && RegisteredLive(s, id)
    ensures RegisteredLive(Apply(s, step), id)
  {
    if id in s.client.pending { assert PendingOwn(s, id); }
  }

  lemma {:induction false} RunKeepsRegisteredLive(s: System, steps: seq<Step>, id: int)
    requires Sound(s) && RegisteredLive(s, id) && Runs(s, steps) && Atomic(s, steps)
    ensures RegisteredLive(Last(s, steps), id)
    decreases |steps|
  {
    if steps != [] {
      StepKeepsSound(s, steps[0]);
      StepKeepsRegisteredLive(s, steps[0], id);
      RunKeepsRegisteredLive(Apply(s, steps[0]), steps[1..], id);
    }
  }

  /** Once a call is over, answered or expired, its id is not registered any more: a late answer is read
      and dropped, and reaches no other call. */
  lemma LateAnswersAreDropped(steps: seq<Step>, call: CallId, body: Body)
    requires Runs(INITIAL, steps) && Atomic(INITIAL, steps)
    requires var s := Last(INITIAL, steps); call in s.calls && s.calls[call].phase.Done?
    ensures var s := Last(INITIAL, steps); Addressee(s.client, Response(s.calls[call].id, body, call)) == None
  {
    var s := Last(INITIAL, steps);
    RunKeepsSound(INITIAL, steps);
    RunKeepsRegisteredLive(INITIAL, steps, s.calls[call].id);
    assert s.calls[call].id in s.client.pending ==> PendingOwn(s, s.calls[call].id);
  }

  // ---------------------------------------------------------------- main results

  /** Over all interleavings with atomic allocation: a call gets only the answer to its own request,
      under its own id. */
  lemma CallsGetTheirOwnAnswer(steps: seq<Step>, call: CallId)
    requires Runs(INITIAL, steps) && Atomic(INITIAL, steps)
    requires call in Last(INITIAL, steps).calls
    ensures var s := Last(INITIAL, steps);
            match s.calls[call].phase
            case Got(line) => line.Response? && line.about == call && line.id == s.calls[call].id
            case Done(Some(line)) => line.Response? && line.about == call && line.id == s.calls[call].id
            case _ => true
  {
    RunKeepsSound(INITIAL, steps);
    assert OutcomeOk(Last(INITIAL, steps), call);
  }

  /** No id is used by two calls, finished ones included. */
  lemma IdsAreNeverReused(steps: seq<Step>, c: CallId, d: CallId)
    requires Runs(INITIAL, steps) && Atomic(INITIAL, steps)
    requires c in Last(INITIAL, steps).calls && d in Last(INITIAL, steps).calls && c != d
    ensures Last(INITIAL, steps).calls[c].id != Last(INITIAL, steps).calls[d].id
  {
    RunKeepsSound(INITIAL, steps);
  }

  /** The answer to a call that still waits is not lost on the way, and the reader never has to wait
      for a full queue. */
  lemma AnswersGetThrough(steps: seq<Step>, call: CallId)
    requires Runs(INITIAL, steps) && Atomic(INITIAL, steps)
    ensures var s := Last(INITIAL, steps);
            && (InPhase(s, call, Waiting) && call !in s.unanswered ==>
                  AboutCount(s.wire, call) == 1 || InReader(s, call) || HasAnswer(s, call))
            && (s.reader.Some? ==> Enabled(s, PutLine))
  {
    RunKeepsSound(INITIAL, steps);
    var s := Last(INITIAL, steps);
    assert PlacesOk(s, call);
    if s.reader.Some? { assert PlacesOk(s, s.reader.value.0); }
  }

  /** Reading the counter keeps the ids apart exactly when no other call is inside the allocation. */
  lemma ReadKeepsIdsApartExactly(s: System, call: CallId)
    requires Sound(s) && Enabled(s, ReadId(call))
    ensures IdsApart(Apply(s, ReadId(call))) <==> !SomeoneAllocates(s)
  {
    var t := Apply(s, ReadId(call));
    if SomeoneAllocates(s) {
      var d :| d in s.calls && s.calls[d].phase == Reading;
      assert IdBehindNext(s, d);
      assert t.calls[d].id == t.calls[call].id;
    } else {
      StepKeepsIds(s, ReadId(call));
    }
  }

  lemma StepKeepsCalls(s: System, step: Step, call: CallId)
    requires Enabled(s, step) && call in s.calls
    ensures call in Apply(s, step).calls && Apply(s, step).calls[call].id == s.calls[call].id
  {
  }

  /** Ids that coincide once coincide for ever. */
  lemma {:induction false} SharedIdsStay(s: System, steps: seq<Step>)
    requires !IdsApart(s) && Runs(s, steps)
    ensures !IdsApart(Last(s, steps))
    decreases |steps|
  {
    if steps != [] {
      var c, d :| c in s.calls && d in s.calls && c != d && s.calls[c].id == s.calls[d].id;
      StepKeepsCalls(s, steps[0], c);
      StepKeepsCalls(s, steps[0], d);
      SharedIdsStay(Apply(s, steps[0]), steps[1..]);
    }
  }

  lemma {:induction false} RunKeepsIdsApartExactly(s: System, steps: seq<Step>)
    requires Sound(s) && Runs(s, steps)
    ensures IdsApart(Last(s, steps)) <==> Atomic(s, steps)
    decreases |steps|
  {
    if steps != [] {
      var next := Apply(s, steps[0]);
      if AllocatesAlone(s, steps[0]) {
        StepKeepsSound(s, steps[0]);
        RunKeepsIdsApartExactly(next, steps[1..]);
      } else {
        ReadKeepsIdsApartExactly(s, steps[0].call);
        SharedIdsStay(next, steps[1..]);
      }
    }
  }

  /** Over all runs: no two calls share an id if and only if no allocation is entered while another
      one is under way. */
  lemma IdsApartExactly(steps: seq<Step>)
    requires Runs(INITIAL, steps)
    ensures IdsApart(Last(INITIAL, steps)) <==> Atomic(INITIAL, steps)
  {
    RunKeepsIdsApartExactly(INITIAL, steps);
  }

  lemma RunsThrough(s: System, step: Step, more: seq<Step>)
    requires Enabled(s, step) && Runs(Apply(s, step), more)
    ensures Runs(s, [step] + more) && Last(s, [step] + more) == Last(Apply(s, step), more)
  {
    assert ([step] + more)[1..] == more;
  }

  lemma {:induction false} RunsThroughAll(s: System, first: seq<Step>, more: seq<Step>)
    requires Runs(s, first) && Runs(Last(s, first), more)
    ensures Runs(s, first + more) && Last(s, first + more) == Last(Last(s, first), more)
    decreases |first|
  {
    if first == [] {
      assert first + more == more;
    } else {
      var t := Apply(s, first[0]);
      RunsThroughAll(t, first[1..], more);
      RunsThrough(s, first[0], first[1..] + more);
      assert [first[0]] + (first[1..] + more) == first + more;
    }
  }

  const BOTH_ALLOCATED := INITIAL.(
    calls := map[1 := Call(1, Allocated), 2 := Call(1, Allocated)],
    client := NEW_CLIENT.(nextId := 3))

  /** Two calls that read the counter before either has moved it share an id ... */
  lemma TwoReadsShareAnId() returns (steps: seq<Step>)
    ensures Runs(INITIAL, steps) && Last(INITIAL, steps) == BOTH_ALLOCATED
  {
    var a, b, c, d := ReadId(1), ReadId(2), BumpId(1), BumpId(2);
    var s1 := Apply(INITIAL, a);
    var s2 := Apply(s1, b);
    var s3 := Apply(s2, c);
    var s4 := Apply(s3, d);
    assert s4.calls == map[1 := Call(1, Allocated), 2 := Call(1, Allocated)];
    RunsThrough(s3, d, []);
    RunsThrough(s2, c, [d] + []);
    RunsThrough(s1, b, [c] + ([d] + []));
    RunsThrough(INITIAL, a, [b] + ([c] + ([d] + [])));
    steps := [a] + ([b] + ([c] + ([d] + [])));
  }

  const BOTH_WAITING := BOTH_ALLOCATED.(
    calls := map[1 := Call(1, Waiting), 2 := Call(1, Waiting)],
    client := NEW_CLIENT.(nextId := 3, pending := map[1 := 2], boxes := map[1 := None, 2 := None]),
    unanswered := {1, 2})

  const BOTH_WAITABLE := BOTH_WAITING.(
    calls := map[1 := Call(1, Waitable), 2 := Call(1, Waitable)], unanswered := {})

  /** ... so that the second takes the place of the first in the table of pending calls ... */
  lemma SharedIdIsOverwritten() returns (steps: seq<Step>)
    ensures Runs(BOTH_ALLOCATED, steps) && Last(BOTH_ALLOCATED, steps) == BOTH_WAITABLE
  {
    var a, b := Register(1), Register(2);
    var s1 := Apply(BOTH_ALLOCATED, a);
    var s2 := Apply(s1, b);
    assert s2.calls == BOTH_WAITABLE.calls && s2.client == BOTH_WAITABLE.client;
    RunsThrough(s1, b, []);
    RunsThrough(BOTH_ALLOCATED, a, [b] + []);
    steps := [a] + ([b] + []);
  }

  lemma BothAreSent() returns (steps: seq<Step>)
    ensures Runs(BOTH_WAITABLE, steps) && Last(BOTH_WAITABLE, steps) == BOTH_WAITING
  {
    var a, b := Send(1), Send(2);
    var s1 := Apply(BOTH_WAITABLE, a);
    var s2 := Apply(s1, b);
    assert s2.calls == BOTH_WAITING.calls && s2.unanswered == {1, 2};
    RunsThrough(s1, b, []);
    RunsThrough(BOTH_WAITABLE, a, [b] + []);
    steps := [a] + ([b] + []);
  }

  lemma OverwrittenGetsOtherAnswer(body: Body) returns (steps: seq<Step>)
    ensures Runs(BOTH_WAITING, steps) && InPhase(Last(BOTH_WAITING, steps), 2, Got(Response(1, body, 1)))
  {
    var a, b, c, d := Answer(1, body), ReadLine, PutLine, Receive(2);
    var s1 := Apply(BOTH_WAITING, a);
    assert s1.wire == [Response(1, body, 1)];
    var s2 := Apply(s1, b);
    var s3 := Apply(s2, c);
    var s4 := Apply(s3, d);
    RunsThrough(s3, d, []);
    RunsThrough(s2, c, [d] + []);
    RunsThrough(s1, b, [c] + ([d] + []));
    RunsThrough(BOTH_WAITING, a, [b] + ([c] + ([d] + [])));
    steps := [a] + ([b] + ([c] + ([d] + [])));
  }

  /** ... and receives the answer to the other's request. */
  lemma SharedIdMixesAnswers(body: Body) returns (steps: seq<Step>)
    ensures Runs(INITIAL, steps) && InPhase(Last(INITIAL, steps), 2, Got(Response(1, body, 1)))
  {
    var start := TwoReadsShareAnId();
    var registers := SharedIdIsOverwritten();
    var sends := BothAreSent();
    var answers := OverwrittenGetsOtherAnswer(body);
    RunsThroughAll(BOTH_WAITABLE, sends, answers);
    RunsThroughAll(BOTH_ALLOCATED, registers, sends + answers);
    RunsThroughAll(INITIAL, start, registers + (sends + answers));
    steps := start + (registers + (sends + answers));
  }
}
