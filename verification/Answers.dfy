/** What a turn's notifications make of its answer: snapshots, increments, commentary, completed
    messages and flushes as they arrive, up to the end of the turn. */
module Answers {
  import opened Options
  import opened Trim
  import opened SessionRecords
  import R = Reassembly
  import opened Notifications

  // ---------------------------------------------------------------- one notification

  /** The notification carries an answer text for the session, and the session takes it. */
  predicate TakesText(s: Session, n: Notification) {
    n.Message? && n.commentary == "" && n.text != "" && AcceptsOutput(s, TurnOf(n))
  }

  predicate ShowsSomething(s: Session) {
    !Blank(s.pending) || !Blank(s.streamed)
  }

  /** A completed agent message replaces whatever is there of the answer, and so does the first text
      after commentary: nothing is appended to, and nothing is left. */
  lemma TextReplaces(sessions: Sessions, n: Notification, w: World, id: SessionId)
    requires id in sessions && TakesText(sessions[id], n)
    requires sessions[id].phase == Commentary || (n.kind == CompletedMessage && ShowsSomething(sessions[id]))
    ensures var t := Handled(sessions, n, w, Some(id))[id];
            R.Combined(t) == n.text && t.pending == n.text && t.phase == Answer && t.delivered == sessions[id].delivered
  {
  }

  /** The session is shown commentary. */
  predicate ShowsCommentary(s: Session, n: Notification, w: World) {
    AcceptsOutput(s, TurnOf(n)) && w.due && ((n.Thinking? && w.commentary) || (n.Message? && n.commentary != ""))
  }

  /** So once commentary is shown, the next text is the whole answer. */
  lemma TextAfterCommentaryReplaces(sessions: Sessions, shown: Notification, v: World, n: Notification, w: World, id: SessionId)
    requires id in sessions && ShowsCommentary(sessions[id], shown, v)
    requires var t := Handled(sessions, shown, v, Some(id)); TakesText(t[id], n)
    ensures var t := Handled(Handled(sessions, shown, v, Some(id)), n, w, Some(id))[id];
            R.Combined(t) == n.text && t.delivered == sessions[id].delivered
  {
    TextReplaces(Handled(sessions, shown, v, Some(id)), n, w, id);
  }

  // ---------------------------------------------------------------- the answer expected

  /** The answer as the server has told it so far: still growing, or complete. */
  datatype Progress = Growing(latest: string) | Complete(text: string)

  /** The text goes on from the growing answer, and is not mistaken for a part of it. */
  predicate IsIncrement(p: Progress, s: Session, n: Notification) {
    n.Message? && n.kind == Delta && p.Growing? && s.phase != Commentary && R.IsUnrelated(s, n.text)
  }

  /** A snapshot is the answer so far, an increment extends it, a completed message completes it;
      everything else, and everything for another turn, says nothing about it. */
  function Progressed(p: Progress, s: Session, n: Notification): Progress {
    if TakesText(s, n) then
      if n.kind == CompletedMessage then Complete(n.text)
      else if IsIncrement(p, s, n) then Growing(p.latest + n.text)
      else Growing(n.text)
    else if n.Partial? && p.Growing? && AcceptsOutput(s, TurnOf(n)) then Growing(p.latest + n.text)
    else p
  }

  /** A partial flush finds the whole answer to show: it has no outer blanks, and the waiting tail
      does not begin with what is streamed already. */
  predicate Flushable(t: Session, p: Progress, w: World) {
    w.due && !Blank(t.pending) ==>
      w.chatKnown && (p.Growing? ==> Strip(R.Combined(t), IsSpace) == R.Combined(t) && R.ShowsAll(t))
  }

  /** What a well-behaved turn sends: until the answer is complete each text is an increment or a
      snapshot that extends the answer so far, unless it is the first text after commentary; commentary
      comes before anything of the answer was delivered, or after the answer is complete; a completed
      message is not blank, and may be repeated. */
  predicate Orderly(p: Progress, s: Session, n: Notification, w: World) {
    && !n.TurnEnd?
    && (ShowsCommentary(s, n, w) && p.Growing? ==> s.delivered == "")
    && (TakesText(s, n) ==>
          if n.kind == CompletedMessage then !Blank(n.text) && (p.Complete? ==> n.text == p.text)
          else p.Growing? && (s.phase == Commentary || p.latest <= n.text || IsIncrement(p, s, n)))
    && (n.Partial? && AcceptsOutput(s, TurnOf(n)) ==>
          (p.Complete? ==> n.text == "") && Flushable(s.(pending := s.pending + n.text), p, w))
  }

  /** The record holds the answer: streamed and waiting together, while it grows; waiting or
      delivered, once it is complete. */
  predicate Holds(s: Session, p: Progress) {
    s.attached &&
    match p
    case Growing(latest) =>
      s.delivered == s.streamed == Strip(s.streamed, IsSpace) && R.Combined(s) == latest &&
      (s.phase == Commentary ==> s.delivered == "")
    case Complete(text) =>
      !Blank(text) && if Blank(s.pending) then IsDelivered(s, text) else Waits(s, text)
  }

  predicate Waits(s: Session, text: string) {
    Strip(s.pending, IsSpace) == Strip(text, IsSpace) && s.streamed == ""
  }

  predicate IsDelivered(s: Session, text: string) {
    s.delivered == Strip(text, IsSpace) && (s.streamed == "" || s.streamed == s.delivered)
  }

  // ---------------------------------------------------------------- the branches keep it

  lemma StripTwice(text: string)
    ensures Strip(Strip(text, IsSpace), IsSpace) == Strip(text, IsSpace)
  {
    StripTrimmed(text, IsSpace);
    StripOfTrimmed(Strip(text, IsSpace), IsSpace);
  }

  lemma FlushKeepsGrowing(s: Session, p: Progress, w: World)
    requires p.Growing? && Holds(s, p) && Flushable(s, p, w)
    ensures Holds(MaybeFlushed(s, w), p)
  {
    if w.due && !Blank(s.pending) && w.accepted {
      assert Strip("", IsSpace) == "";
      R.FlushTextIsAnswerExactly(s);
      assert |R.Combined(s)| > |s.delivered|;
      assert R.FlushText(s) + "" == R.FlushText(s);
    }
  }

  lemma FlushKeepsComplete(s: Session, p: Progress, w: World)
    requires p.Complete? && Holds(s, p) && Flushable(s, p, w)
    ensures Holds(MaybeFlushed(s, w), p)
  {
    assert Strip("", IsSpace) == "";
  }

  lemma PartialKeeps(s: Session, n: Notification, w: World, p: Progress)
    requires n.Partial? && AcceptsOutput(s, TurnOf(n)) && Holds(s, p) && Orderly(p, s, n, w)
    ensures Holds(Spoken(s, n, w), Progressed(p, s, n))
  {
    var u := if n.text != "" then s.(pending := s.pending + n.text, pendingAt := Some(w.now)) else s;
    assert n.text == "" ==> s.pending + n.text == s.pending;
    match p {
      case Growing(latest) =>
        Associate(s.streamed, s.pending, n.text);
        FlushKeepsGrowing(u, Growing(latest + n.text), w);
      case Complete(_) => FlushKeepsComplete(u, p, w);
    }
  }

  lemma SnapshotKeeps(s: Session, kind: MessageKind, text: string, now: int, p: Progress)
    requires p.Growing? && Holds(s, p) && kind != CompletedMessage && text != ""
    requires s.phase == Commentary || p.latest <= text
    ensures Holds(Heard(s, kind, text, now), Growing(text))
  {
    assert Strip("", IsSpace) == "";
    if s.phase == Commentary {
      assert "" + text == text;
    } else {
      R.GrowingSnapshotMerges(s, kind == Delta, text);
      if text != R.Combined(s) { R.GrowingSnapshotActions(s, text); }
    }
  }

  lemma IncrementKeeps(s: Session, text: string, now: int, p: Progress)
    requires p.Growing? && Holds(s, p) && s.phase != Commentary && R.IsUnrelated(s, text)
    ensures Holds(Heard(s, Delta, text, now), Growing(p.latest + text))
  {
    R.UnrelatedTextMerges(s, text);
    assert R.MergeDelta(s, text) == R.Append(text);
  }

  lemma StripBehindBlank(front: string, text: string)
    requires AllBlank(front, IsSpace)
    ensures Strip(front + text, IsSpace) == Strip(text, IsSpace)
  {
    LStripBlankPrefix(front, text, IsSpace);
  }

  /** Text of a complete answer that comes from a blank beginning, and is cut inside blanks. */
  lemma CutInBlanks(text: string, k: nat, front: string)
    requires k <= |text| && AllBlank(text[..k], IsSpace) && AllBlank(front, IsSpace)
    ensures Strip(front + text[k..], IsSpace) == Strip(text, IsSpace)
  {
    StripBehindBlank(front, text[k..]);
    StripBehindBlank(text[..k], text[k..]);
    assert text[..k] + text[k..] == text;
  }

  /** The action adds the text behind a blank beginning, or the text was delivered already. */
  ghost predicate AddsText(s: Session, text: string, action: R.Action) {
    match action
    case Ignore => s.delivered == Strip(text, IsSpace)
    case Replace(x) => x == text
    case Append(x) =>
      (exists k | 0 <= k <= |text| :: x == text[k..] && AllBlank(text[..k], IsSpace)) ||
      (s.delivered == Strip(text, IsSpace) && AllBlank(x, IsSpace))
  }

  predicate TakesBlank(s: Session, text: string) {
    Blank(s.pending) && s.streamed == "" && !Blank(text) && (s.delivered == "" || s.delivered == Strip(text, IsSpace))
  }

  /** Behind its visible part a text has only blanks. */
  lemma BehindVisible(text: string)
    requires Strip(text, IsSpace) <= text && Strip(text, IsSpace) != ""
    ensures AllBlank(text[|Strip(text, IsSpace)|..], IsSpace)
  {
    var head, tail := StripParts(text, IsSpace);
    var mid := Strip(text, IsSpace);
    assert head == [];
    assert text == mid + tail;
  }

  lemma BlankPrefix(front: string, text: string, k: nat)
    requires AllBlank(front, IsSpace) && k <= |text| && k <= |front| && front[|front| - k..] == text[..k]
    ensures AllBlank(text[..k], IsSpace)
  {
    forall i | 0 <= i < k ensures IsSpace(text[..k][i]) { assert text[..k][i] == front[|front| - k + i]; }
  }

  lemma NotWithin(blank: string, text: string)
    requires AllBlank(blank, IsSpace) && !Blank(text)
    ensures !(text <= blank)
  {
    if text <= blank { StripBlank(text, IsSpace); assert false; }
  }

  lemma OverlapIsBlank(blank: string, text: string)
    requires AllBlank(blank, IsSpace)
    ensures R.SuffixPrefixOverlap(blank, text) <= |text| && AllBlank(text[..R.SuffixPrefixOverlap(blank, text)], IsSpace)
  {
    R.OverlapOverlaps(blank, text);
    BlankPrefix(blank, text, R.SuffixPrefixOverlap(blank, text));
  }

  lemma BlankAction(s: Session, text: string)
    requires TakesBlank(s, text)
    ensures AddsText(s, text, R.MergeIncremental(s, text))
  {
    var blank := s.pending;
    StripEmpty(blank, IsSpace);
    assert R.Combined(s) == blank;
    NotWithin(blank, text);
    OverlapIsBlank(blank, text);
    assert text[0..] == text;
    if R.StartsWith(text, s.delivered) { BehindVisible(text); }
  }

  /** With nothing visible there, merging a text leaves it waiting, unless it was delivered already. */
  lemma BlankTakesText(s: Session, text: string)
    requires TakesBlank(s, text)
    ensures var t := R.Merged(s, false, text);
            t.streamed == "" && t.delivered == s.delivered &&
            if Blank(t.pending) then t.delivered == Strip(text, IsSpace) else Strip(t.pending, IsSpace) == Strip(text, IsSpace)
  {
    BlankAction(s, text);
    StripEmpty(s.pending, IsSpace);
    match R.MergeIncremental(s, text)
    case Append(x) =>
      if k :| 0 <= k <= |text| && x == text[k..] && AllBlank(text[..k], IsSpace) {
        CutInBlanks(text, k, s.pending);
      } else {
        StripBehindBlank(s.pending, x);
        StripBlank(x, IsSpace);
      }
    case _ =>
  }

  lemma CompletedKeeps(s: Session, text: string, now: int, p: Progress)
    requires Holds(s, p) && !Blank(text) && (p.Complete? ==> text == p.text)
    ensures Holds(Heard(s, CompletedMessage, text, now), Complete(text))
  {
    if s.phase != Commentary && !ShowsSomething(s) {
      NothingShown(s, text, p);
      BlankTakesText(s, text);
      HeardMerges(s, text, now);
    } else {
      assert Strip("", IsSpace) == "";
    }
  }

  lemma NothingShown(s: Session, text: string, p: Progress)
    requires Holds(s, p) && !Blank(text) && (p.Complete? ==> text == p.text) && !ShowsSomething(s)
    ensures TakesBlank(s, text)
  {
    StripTwice(text);
  }

  lemma HeardMerges(s: Session, text: string, now: int)
    requires s.phase != Commentary && !ShowsSomething(s)
    ensures var t, m := Heard(s, CompletedMessage, text, now), R.Merged(s, false, text);
            t.pending == m.pending && t.streamed == m.streamed && t.delivered == m.delivered && t.attached == m.attached
  {
  }

  lemma MusedKeeps(s: Session, commentary: bool, w: World, p: Progress)
    requires Holds(s, p) && (w.due && commentary && p.Growing? ==> s.delivered == "")
    ensures Holds(Mused(s, commentary, w), p)
  {
  }

  /** An orderly notification leaves the record holding the answer that it tells. */
  lemma SpokenKeeps(s: Session, n: Notification, w: World, p: Progress)
    requires Holds(s, p) && Orderly(p, s, n, w)
    ensures Holds(Spoken(s, n, w), Progressed(p, s, n))
  {
    match n {
      case Partial(_, _, _, _) => if AcceptsOutput(s, TurnOf(n)) { PartialKeeps(s, n, w, p); }
      case Message(_, _, _, kind, commentary, text, _) =>
        if TakesText(s, n) {
          if kind == CompletedMessage {
            CompletedKeeps(s, text, w.now, p);
          } else if IsIncrement(p, s, n) {
            IncrementKeeps(s, text, w.now, p);
          } else {
            SnapshotKeeps(s, kind, text, w.now, p);
          }
        } else if AcceptsOutput(s, TurnOf(n)) {
          MusedKeeps(s, commentary != "", w, p);
        }
      case Thinking(_, _, _) => if AcceptsOutput(s, TurnOf(n)) { MusedKeeps(s, w.commentary, w, p); }
      case Unrelated(_, _, _) => MusedKeeps(s, false, w, p);
      case _ =>
    }
  }

  // ---------------------------------------------------------------- the end of the turn

  /** What the user is to be sent in the end, with what the end of the turn itself tells. */
  function AnswerTold(p: Progress, text: string): string {
    match p
    case Growing(latest) => if text == "" then latest else text
    case Complete(answer) => Strip(answer, IsSpace)
  }

  /** The turn can end so: its text, if any, extends the growing answer or is the complete one; and a
      growing answer is then visible, has no outer blanks, and can be shown whole. */
  predicate Deliverable(s: Session, p: Progress, text: string) {
    match p
    case Growing(latest) =>
      var answer := AnswerTold(p, text);
      latest <= answer && s.streamed <= answer && answer != "" && Strip(answer, IsSpace) == answer &&
      var t := s.(pending := answer[|s.streamed|..]);
      Blank(t.pending) || R.ShowsAll(t)
    case Complete(answer) => text == "" || text == answer
  }

  lemma RestOfText(s: Session, text: string)
    requires R.Combined(s) <= text
    ensures text[|s.streamed|..] == s.pending + text[|R.Combined(s)|..]
    ensures s.streamed + (s.pending + text[|R.Combined(s)|..]) == text
  {
    var rest := text[|R.Combined(s)|..];
    assert text == R.Combined(s) + rest;
    Associate(s.streamed, s.pending, rest);
  }

  lemma ExtensionIsAppended(s: Session, text: string)
    requires Holds(s, Growing(R.Combined(s))) && R.Combined(s) <= text && text != R.Combined(s)
    ensures R.MergeIncremental(s, text) == R.Append(text[|R.Combined(s)|..])
  {
    var u := s.(phase := NoPhase);
    R.GrowingSnapshotActions(u, text);
  }

  lemma CompletionAppended(s: Session, text: string, now: int)
    requires Holds(s, Growing(R.Combined(s))) && R.Combined(s) <= text && text != R.Combined(s) && Strip(text, IsSpace) == text
    ensures WithCompletion(s, text, now) == s.(pending := s.pending + text[|R.Combined(s)|..], pendingAt := Some(now))
  {
    CompletionWanted(s, text);
    ExtensionIsAppended(s, text);
  }

  /** A completion text that extends the growing answer becomes the answer. */
  lemma CompletionExtends(s: Session, text: string, now: int)
    requires Holds(s, Growing(R.Combined(s))) && R.Combined(s) <= text && text != "" && Strip(text, IsSpace) == text
    ensures var t := WithCompletion(s, text, now);
            Holds(t, Growing(text)) && t.pending == text[|s.streamed|..] && t.streamed == s.streamed && t.phase == s.phase
  {
    RestOfText(s, text);
    if text == R.Combined(s) {
      CompletionAddsNothing(s, text, now);
    } else {
      CompletionAppended(s, text, now);
    }
  }

  lemma CompletionWanted(s: Session, text: string)
    requires R.Combined(s) <= text && text != R.Combined(s) && Strip(text, IsSpace) == text
    requires s.delivered == s.streamed
    ensures WantsCompletion(s, text)
  {
    R.StripShorter(s.pending);
    R.StripShorter(s.streamed);
  }

  lemma GrowingIsDelivered(s: Session, turn: TurnId, text: string, w: World)
    requires Holds(s, Growing(R.Combined(s))) && Deliverable(s, Growing(R.Combined(s)), text) && w.chatKnown && w.accepted
    ensures Delivers(Ended(s, turn, false, false, text, w), AnswerTold(Growing(R.Combined(s)), text), w)
  {
    assert Strip("", IsSpace) == "";
    assert R.Combined(s)[|s.streamed|..] == s.pending;
    var t := WithCompletion(s, text, w.now);
    if text != "" { CompletionExtends(s, text, w.now); }
    WholeIsDelivered(t, turn, w);
    CompletionAddsNothing(t, "", w.now);
  }

  lemma WholeIsDelivered(s: Session, turn: TurnId, w: World)
    requires Holds(s, Growing(R.Combined(s))) && R.Combined(s) != "" && Strip(R.Combined(s), IsSpace) == R.Combined(s)
    requires (Blank(s.pending) || R.ShowsAll(s)) && w.chatKnown && w.accepted
    ensures Delivers(Settled(Closed(s, turn), false, false, w), R.Combined(s), w)
  {
    CompletionAddsNothing(s, "", w.now);
    if s.phase != Commentary {
      EndDeliversAnswer(s, turn, "", w);
    } else {
      assert R.Combined(s) == s.pending && Strip("", IsSpace) == "";
    }
  }

  lemma CompleteAddsNothing(s: Session, answer: string, text: string, now: int)
    requires Holds(s, Complete(answer)) && (text == "" || text == answer)
    ensures WithCompletion(s, text, now) == s
  {
    assert Strip("", IsSpace) == "";
    StripTwice(answer);
  }

  lemma CompleteIsSettled(s: Session, answer: string, w: World)
    requires Holds(s, Complete(answer)) && w.chatKnown && w.accepted
    ensures Delivers(Settled(s, false, false, w), Strip(answer, IsSpace), w)
  {
    assert Strip("", IsSpace) == "";
    StripTwice(answer);
    if Blank(s.pending) {
      var (u, flush) := WithoutPending(s, w);
      if flush { assert R.FlushText(u) == Strip(answer, IsSpace); }
    } else {
      assert R.FlushText(s) == Strip(answer, IsSpace);
    }
  }

  // ---------------------------------------------------------------- a whole turn

  /** What is expected of the session's answer after the event. */
  function ProgressAfter(p: Progress, sessions: Sessions, e: Event, id: SessionId): Progress
    requires id in sessions
  {
    if e.Notified? && e.target == Some(id) then Progressed(p, sessions[id], e.n) else p
  }

  /** Every notification for the session along the history is orderly, and it starts no other turn. */
  ghost predicate OrderlyTurn(sessions: Sessions, used: set<TurnId>, events: seq<Event>, id: SessionId, p: Progress)
    requires History(sessions, used, events)
    decreases |events|
  {
    id in sessions &&
    (events != [] ==>
       var e := events[0];
       (e.Notified? && e.target == Some(id) ==> Orderly(p, sessions[id], e.n, e.w)) && (e.Registered? ==> e.id != id) &&
       OrderlyTurn(Happen(sessions, e), UsedAfter(used, e), events[1..], id, ProgressAfter(p, sessions, e, id)))
  }

  ghost function AnswerAlong(sessions: Sessions, used: set<TurnId>, events: seq<Event>, id: SessionId, p: Progress): Progress
    requires History(sessions, used, events) && OrderlyTurn(sessions, used, events, id, p)
    decreases |events|
  {
    if events == [] then p
    else AnswerAlong(Happen(sessions, events[0]), UsedAfter(used, events[0]), events[1..], id,
                     ProgressAfter(p, sessions, events[0], id))
  }

  lemma EventKeeps(sessions: Sessions, used: set<TurnId>, e: Event, id: SessionId, p: Progress)
    requires Possible(sessions, used, e) && id in sessions && Holds(sessions[id], p)
    requires e.Notified? && e.target == Some(id) ==> Orderly(p, sessions[id], e.n, e.w)
    requires e.Registered? ==> e.id != id
    ensures id in Happen(sessions, e) && Holds(Happen(sessions, e)[id], ProgressAfter(p, sessions, e, id))
  {
    if e.Notified? && e.target == Some(id) {
      SpokenKeeps(sessions[id], e.n, e.w, p);
      if e.n.ThreadReady? { assert Progressed(p, sessions[id], e.n) == p; }
    }
  }

  /** Over every history of notifications, for this session and others: while they are orderly for it,
      its record holds the answer that they tell. */
  lemma {:induction false} TurnHoldsAnswer(sessions: Sessions, used: set<TurnId>, events: seq<Event>, id: SessionId, p: Progress)
    requires History(sessions, used, events) && OrderlyTurn(sessions, used, events, id, p) && Holds(sessions[id], p)
    ensures var t := Final(sessions, used, events);
            id in t && Holds(t[id], AnswerAlong(sessions, used, events, id, p))
    decreases |events|
  {
    if events != [] {
      EventKeeps(sessions, used, events[0], id, p);
      TurnHoldsAnswer(Happen(sessions, events[0]), UsedAfter(used, events[0]), events[1..], id,
                      ProgressAfter(p, sessions, events[0], id));
    }
  }

  /** The end of a turn that did not fail delivers the answer that the notifications told: the completed
      message if there was one, else the latest snapshot with its increments. */
  lemma TurnDeliversAnswer(sessions: Sessions, used: set<TurnId>, events: seq<Event>, id: SessionId, p: Progress,
                           n: Notification, w: World)
    requires History(sessions, used, events) && OrderlyTurn(sessions, used, events, id, p) && Holds(sessions[id], p)
    requires var t, q := Final(sessions, used, events), AnswerAlong(sessions, used, events, id, p);
             n.TurnEnd? && !n.failed && Addresses(t, n, w, Some(id)) && IsRecoverable(t[id]) &&
             Deliverable(t[id], q, n.text)
    requires w.chatKnown && w.accepted
    ensures var t := Final(sessions, used, events);
            Delivers(Handled(t, n, w, Some(id))[id], AnswerTold(AnswerAlong(sessions, used, events, id, p), n.text), w)
  {
    TurnHoldsAnswer(sessions, used, events, id, p);
    var s, q := Final(sessions, used, events)[id], AnswerAlong(sessions, used, events, id, p);
    EndDelivers(s, q, TurnOf(n).value, n.errorNamesThread, n.text, w);
  }

  lemma EndDelivers(s: Session, p: Progress, turn: TurnId, errorNamesThread: bool, text: string, w: World)
    requires Holds(s, p) && Deliverable(s, p, text) && w.chatKnown && w.accepted
    ensures Delivers(Ended(s, turn, false, errorNamesThread, text, w), AnswerTold(p, text), w)
  {
    match p
    case Growing(_) => GrowingIsDelivered(s, turn, text, w);
    case Complete(answer) =>
      CompleteAddsNothing(s, answer, text, w.now);
      CompleteIsSettled(Closed(s, turn), answer, w);
  }

  // ---------------------------------------------------------------- a short turn

  predicate InTurn(s: Session) {
    s.thread.Some? && s.active.Some? && s.status == RunningTurn
  }

  /** A text for the session's own thread and turn. */
  function Said(s: Session, kind: MessageKind, text: string): Notification {
    Message(s.thread, s.active, None, kind, "", text, false)
  }

  lemma SaidReaches(sessions: Sessions, id: SessionId, kind: MessageKind, text: string, w: World)
    requires id in sessions && InTurn(sessions[id]) && text != ""
    ensures var s := sessions[id];
            var n := Said(s, kind, text);
            Addresses(sessions, n, w, Some(id)) && TakesText(s, n) &&
            Handled(sessions, n, w, Some(id)) == sessions[id := Heard(s, kind, text, w.now)]
  {
    var s, n := sessions[id], Said(sessions[id], kind, text);
    assert HasThread(sessions, id, n.thread) && Welcomes(s, n.turn);
  }

  lemma HeardStaysInTurn(s: Session, kind: MessageKind, text: string, now: int)
    requires InTurn(s)
    ensures var t := Heard(s, kind, text, now); InTurn(t) && t.thread == s.thread && t.active == s.active
  {
  }

  /** One delta and a completed message: such a turn is orderly, and ends with the completed message
      delivered. */
  lemma ShortTurnDelivers(sessions: Sessions, used: set<TurnId>, id: SessionId, delta: string, text: string, w: World)
    requires id in sessions && InTurn(sessions[id]) && Holds(sessions[id], Growing(""))
    requires delta != "" && !Blank(text) && text != "" && w.chatKnown && w.accepted
    ensures var s := sessions[id];
            var events := [Notified(Said(s, Delta, delta), w, Some(id)), Notified(Said(s, CompletedMessage, text), w, Some(id))];
            var n := TurnEnd(s.thread, s.active, None, false, false, "");
            History(sessions, used, events) && OrderlyTurn(sessions, used, events, id, Growing("")) &&
            Addresses(Final(sessions, used, events), n, w, Some(id)) &&
            Delivers(Handled(Final(sessions, used, events), n, w, Some(id))[id], Strip(text, IsSpace), w)
  {
    var s := sessions[id];
    var first, second := Notified(Said(s, Delta, delta), w, Some(id)), Notified(Said(s, CompletedMessage, text), w, Some(id));
    SaidReaches(sessions, id, Delta, delta, w);
    HeardStaysInTurn(s, Delta, delta, w.now);
    var next := Happen(sessions, first);
    DeltaBegins(s, delta, w);
    SaidReaches(next, id, CompletedMessage, text, w);
    HeardStaysInTurn(next[id], CompletedMessage, text, w.now);
    CompletedKeeps(next[id], text, w.now, Growing(delta));
    var last := Happen(next, second);
    TwoEvents(sessions, used, first, second);
    assert HasTurn(last, id, s.active);
    EndDelivers(last[id], Complete(text), s.active.value, false, "", w);
    var events := [first, second];
    assert OrderlyTurn(last, used, [], id, Complete(text));
    assert OrderlyTurn(next, used, [second], id, Growing(delta));
  }

  lemma DeltaBegins(s: Session, delta: string, w: World)
    requires InTurn(s) && Holds(s, Growing("")) && delta != ""
    ensures var n := Said(s, Delta, delta);
            Orderly(Growing(""), s, n, w) && Progressed(Growing(""), s, n) == Growing(delta) &&
            Holds(Heard(s, Delta, delta, w.now), Growing(delta))
  {
    assert "" + delta == delta;
    SnapshotKeeps(s, Delta, delta, w.now, Growing(""));
  }

  lemma TwoEvents(sessions: Sessions, used: set<TurnId>, first: Event, second: Event)
    requires first.Notified? && second.Notified?
    requires Possible(sessions, used, first) && Possible(Happen(sessions, first), used, second)
    ensures History(sessions, used, [first, second]) && History(Happen(sessions, first), used, [second])
    ensures Final(sessions, used, [first, second]) == Happen(Happen(sessions, first), second)
    ensures [first, second][1..] == [second] && [second][1..] == []
  {
    assert [first, second][1..] == [second] && [second][1..] == [];
    assert History(Happen(Happen(sessions, first), second), used, []);
    assert Final(Happen(sessions, first), used, [second]) == Happen(Happen(sessions, first), second);
  }
}
