/** What a flush, and the end of a turn, claim to have delivered, and what they leave behind. */
module Deliveries {
  import opened Options
  import opened Trim
  import opened SessionRecords
  import R = Reassembly
  import opened Notifications

  // ---------------------------------------------------------------- flushes

  /** There is somewhere to deliver to. */
  predicate Reachable(s: Session, chatKnown: bool) {
    s.attached && chatKnown
  }

  /** A partial flush claims a text as delivered only if it was handed over, and then says so in full;
      it keeps the waiting text exactly if the delivery was refused, and drops it if there is nobody to
      deliver to or it was delivered already. */
  lemma FlushClaimsOnlyAccepted(s: Session, chatKnown: bool, accepted: bool, messages: bool, now: int)
    requires !Blank(s.pending)
    ensures var t, text := R.FlushedPartial(s, chatKnown, accepted, messages, now), R.FlushText(s);
            if Reachable(s, chatKnown) && text != s.delivered then
              if accepted then t.delivered == text && t.streamed == text && t.pending == "" && t.hasMessages == messages &&
                               t.lastAgentAt == Some(now)
              else t == s
            else t == s.(pending := "", pendingAt := None)
  {
  }

  lemma FlushTextVisible(s: Session)
    requires !Blank(s.pending)
    ensures R.FlushText(s) != ""
  {
    StripTrimmed(s.pending, IsSpace);
    var all := s.streamed + s.pending;
    if Strip(all, IsSpace) == "" {
      StripEmpty(all, IsSpace);
      assert forall i | 0 <= i < |s.pending| :: s.pending[i] == all[|s.streamed| + i];
      StripBlank(s.pending, IsSpace);
      assert false;
    }
  }

  // ---------------------------------------------------------------- the end of a turn

  /** The answer as the end of a turn finds it: what a flush would show, or what is streamed. */
  function FinalText(s: Session): string {
    if Blank(s.pending) then Strip(s.streamed, IsSpace) else R.FlushText(s)
  }

  lemma StreamedAgain(s: Session, w: World)
    requires Blank(s.pending) && Strip(s.streamed, IsSpace) != ""
    ensures var u := s.(pending := Strip(s.streamed, IsSpace), pendingAt := Some(w.now));
            R.FlushText(u) == Strip(s.streamed, IsSpace) && !Blank(u.pending)
  {
    StripTrimmed(s.streamed, IsSpace);
    StripOfTrimmed(Strip(s.streamed, IsSpace), IsSpace);
    assert Strip("", IsSpace) == "";
  }

  /** Whatever the record looks like when a turn ends that did not fail: its final text is delivered, or
      on its way in the background, if it can be delivered at all. */
  lemma FinalTextIsDelivered(s: Session, w: World)
    requires Reachable(s, w.chatKnown) && w.accepted && FinalText(s) != ""
    ensures Delivers(Settled(s, false, false, w), FinalText(s), w)
  {
    if Blank(s.pending) { StreamedAgain(s, w); }
  }

  /** Delivery in the foreground leaves nothing waiting and nothing streamed. */
  lemma EndLeavesNothing(s: Session, w: World)
    requires Reachable(s, w.chatKnown) && w.accepted && !w.background
    ensures var t := Settled(s, false, false, w);
            Blank(t.pending) && t.streamed == "" && t.phase == NoPhase && !t.hasMessages
  {
    assert Strip("", IsSpace) == "";
    if Blank(s.pending) && Strip(s.streamed, IsSpace) != "" { StreamedAgain(s, w); }
  }

  /** Without anyone to deliver to, the end of a turn drops what waits and claims nothing new of it. */
  lemma UnreachableClaimsNothing(s: Session, w: World)
    requires !Reachable(s, w.chatKnown) && !Blank(s.pending)
    ensures var t := Settled(s, false, false, w);
            t.pending == "" && t.delivered == s.delivered && t.streamed == s.streamed && t.lastAgentAt == Some(w.now)
  {
  }

  /** A refused delivery leaves the text waiting for the next try. */
  lemma RefusedKeepsWaiting(s: Session, w: World)
    requires Reachable(s, w.chatKnown) && !w.accepted && !Blank(s.pending) && R.FlushText(s) != s.delivered
    ensures Settled(s, false, false, w) == s
  {
  }

  /** The final text goes to the background exactly if deliveries do, and it is new or stands in
      messages that have to take their final form. */
  lemma BackgroundDeliversExactly(s: Session, w: World)
    requires s.status == Active && Reachable(s, w.chatKnown) && w.accepted
    ensures Settled(s, false, false, w).status == DeliveringFinal <==>
            w.background && FinalText(s) != "" && (s.hasMessages || (!Blank(s.pending) && FinalText(s) != s.delivered))
  {
    assert Strip("", IsSpace) == "";
    if Blank(s.pending) {
      if Strip(s.streamed, IsSpace) != "" { StreamedAgain(s, w); }
    } else {
      FlushTextVisible(s);
    }
  }

  /** A completion text that is similar to the answer replaces it. */
  lemma SimilarCompletionReplaces(s: Session, text: string, now: int)
    requires WantsCompletion(s, text) && R.IsUnrelated(s, text)
    requires R.Similar(R.Combined(s), text) || R.Similar(s.delivered, text)
    ensures var t := WithCompletion(s, text, now); R.Combined(t) == text && t.phase == NoPhase && t.pendingAt == Some(now)
  {
  }
}
