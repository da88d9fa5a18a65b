/** Exactly which texts the HTML splitter turns into a message wider than the limit. */
module SplitterExcess {
  import opened Trim
  import opened Markup
  import opened HtmlSplitter
  import opened SplitterLimits

  /** The message under construction, with the closers that flushing would add, is too wide. */
  predicate Overfull(a: Acc, limit: nat) {
    Width(LStrip(a.current, IsBlank)) + Width(Closing(a.open)) > limit
  }

  /** Somewhere in the tokens a tag is opened where its own closer, unlike the tag, no longer fits. */
  predicate OpensTooLate(tokens: seq<Token>, a: Acc, limit: nat)
    requires RunsFit(tokens, a.open, limit)
  {
    if tokens == [] then false
    else
      PutTextKeepsOpen(tokens, a, limit);
      var b := Put(tokens[0], a, limit);
      (tokens[0].Bracket? && tokens[0].tag.Open? && Overfull(b, limit)) || OpensTooLate(tokens[1..], b, limit)
  }

  /** The general form: after some tag, of whatever kind, the message is overfull. */
  predicate TagOverfills(tokens: seq<Token>, a: Acc, limit: nat)
    requires RunsFit(tokens, a.open, limit)
  {
    if tokens == [] then false
    else
      PutTextKeepsOpen(tokens, a, limit);
      var b := Put(tokens[0], a, limit);
      (tokens[0].Bracket? && Overfull(b, limit)) || TagOverfills(tokens[1..], b, limit)
  }

  ghost predicate HasWide(a: Acc, limit: nat) {
    exists c | c in a.chunks :: Width(c) > limit
  }

  // ---------------------------------------------------------------- finished messages stay

  ghost predicate KeepsChunks(a: Acc, b: Acc) {
    forall c | c in a.chunks :: c in b.chunks
  }

  lemma PutTextKeepsChunks(a: Acc, remaining: string, limit: nat)
    requires remaining != "" ==> Overhead(a.open) < limit
    ensures KeepsChunks(a, PutText(a, remaining, limit))
    decreases |remaining|, Room(a, limit) <= 0
  {
    if remaining != "" {
      RoundProgress(a, remaining, limit);
      var (b, rest) := TextRound(a, remaining, limit);
      PutTextKeepsChunks(b, rest, limit);
    }
  }

  lemma PutKeepsChunks(token: Token, a: Acc, limit: nat)
    requires RunsFit([token], a.open, limit)
    ensures KeepsChunks(a, Put(token, a, limit))
  {
    if token.Plain? { PutTextKeepsChunks(a, token.s, limit); }
  }

  lemma {:induction false} RunKeepsChunks(tokens: seq<Token>, a: Acc, limit: nat)
    requires RunsFit(tokens, a.open, limit)
    ensures KeepsChunks(a, Run(tokens, a, limit))
  {
    if tokens != [] {
      PutTextKeepsOpen(tokens, a, limit);
      PutKeepsChunks(tokens[0], a, limit);
      RunKeepsChunks(tokens[1..], Put(tokens[0], a, limit), limit);
    }
  }

  // ---------------------------------------------------------------- an overfull message is flushed as it is

  lemma ClosingIsMarkup(open: seq<Frame>)
    ensures forall x | x in Closing(open) :: x.Mark?
  {
    if open != [] {
      ClosingUnfolds(open);
      ClosingIsMarkup(open[..|open| - 1]);
    }
  }

  /** A text that ends in a tag is only stripped in front. */
  lemma StripBeforeTag(s: Text)
    requires s != [] && s[|s| - 1].Mark?
    ensures var body := Solidified(s);
            body == LStrip(s, IsBlank) && body != [] && !IsBlank(body[0]) && body[|body| - 1].Mark?
  {
    var head := LeftPart(s, IsBlank);
    assert LStrip(s, IsBlank) == [] ==> head == s;
  }

  lemma ClosedBodyIsTrimmed(body: Text, open: seq<Frame>)
    requires body != [] && !IsBlank(body[0]) && body[|body| - 1].Mark?
    ensures Solidified(body + Closing(open)) == body + Closing(open)
  {
    var closing := Closing(open);
    var whole := body + closing;
    ClosingIsMarkup(open);
    assert whole[0] == body[0];
    assert closing != [] ==> closing[|closing| - 1] in closing;
    assert whole[|whole| - 1] == if closing == [] then body[|body| - 1] else closing[|closing| - 1];
    StripOfTrimmed(whole, IsBlank);
  }

  /** A message that ends in a tag is flushed with all its closers. */
  lemma TaggedFlush(a: Acc, body: Text)
    requires body == Solidified(a.current) && body != [] && !IsBlank(body[0]) && body[|body| - 1].Mark?
    ensures Flush(a).chunks == a.chunks + [body + Closing(a.open)]
  {
    ClosedBodyIsTrimmed(body, a.open);
  }

  lemma OverfullFlushIsWide(a: Acc, limit: nat)
    requires Overfull(a, limit) && a.current != [] && a.current[|a.current| - 1].Mark?
    ensures HasWide(Flush(a), limit) && Solidified(a.current) != []
  {
    StripBeforeTag(a.current);
    var body := Solidified(a.current);
    TaggedFlush(a, body);
    WidthConcat(body, Closing(a.open));
    assert Flush(a).chunks[|a.chunks|] == body + Closing(a.open);
  }

  lemma WideStays(a: Acc, b: Acc, limit: nat)
    requires HasWide(a, limit) && KeepsChunks(a, b)
    ensures HasWide(b, limit)
  {
    var c :| c in a.chunks && Width(c) > limit;
    assert c in b.chunks;
  }

  /** The next token flushes an overfull message. */
  lemma OverfullIsPutOut(token: Token, a: Acc, limit: nat)
    requires RunsFit([token], a.open, limit) && (token.Plain? ==> token.s != "")
    requires Overfull(a, limit) && a.current != [] && a.current[|a.current| - 1].Mark?
    ensures HasWide(Put(token, a, limit), limit)
  {
    OverfullFlushIsWide(a, limit);
    WidthStrip(a.current);
    match token
    case Plain(s) =>
      RoundThatFlushes(a, s, limit);
      PutTextKeepsChunks(Flush(a), s, limit);
      WideStays(Flush(a), PutText(a, s, limit), limit);
    case Bracket(tag) => WideStays(Flush(a), PutTag(a, tag, limit), limit);
  }

  lemma FinishingKeepsWide(a: Acc, limit: nat)
    requires HasWide(a, limit)
    ensures HasWide(Finished(a), limit)
  {
    WideStays(a, Finished(a), limit);
  }

  /** So once a message is overfull it comes out too wide, whatever follows. */
  lemma OverfullComesOut(tokens: seq<Token>, a: Acc, limit: nat)
    requires RunsFit(tokens, a.open, limit) && forall t | t in tokens :: t.Plain? ==> t.s != ""
    requires Overfull(a, limit) && a.current != [] && a.current[|a.current| - 1].Mark?
    ensures HasWide(Finished(Run(tokens, a, limit)), limit)
  {
    if tokens == [] {
      OverfullFlushIsWide(a, limit);
    } else {
      assert tokens[0] in tokens;
      PutTextKeepsOpen(tokens, a, limit);
      OverfullIsPutOut(tokens[0], a, limit);
      var b := Put(tokens[0], a, limit);
      RunKeepsChunks(tokens[1..], b, limit);
      WideStays(b, Run(tokens[1..], b, limit), limit);
      FinishingKeepsWide(Run(tokens, a, limit), limit);
    }
  }

  lemma {:induction false} OverfillingComesOut(tokens: seq<Token>, a: Acc, limit: nat)
    requires RunsFit(tokens, a.open, limit) && forall t | t in tokens :: t.Plain? ==> t.s != ""
    requires TagOverfills(tokens, a, limit)
    ensures HasWide(Finished(Run(tokens, a, limit)), limit)
  {
    PutTextKeepsOpen(tokens, a, limit);
    var b := Put(tokens[0], a, limit);
    if tokens[0].Bracket? && Overfull(b, limit) {
      OverfullComesOut(tokens[1..], b, limit);
    } else {
      OverfillingComesOut(tokens[1..], b, limit);
    }
  }

  // ---------------------------------------------------------------- otherwise the limit is kept

  lemma FlushedWithin(a: Acc, limit: nat)
    requires Bounded(a, limit)
    ensures forall c | c in Flush(a).chunks :: Width(c) <= limit
  {
    var body := Solidified(a.current);
    if body != [] {
      WidthStrip(a.current);
      WidthConcat(body, Closing(a.open));
      WidthStrip(body + Closing(a.open));
    }
  }

  lemma FittingTagBounded(a: Acc, tag: Tag, limit: nat)
    requires Bounded(a, limit) && !Overfull(PutTag(a, tag, limit), limit)
    ensures Bounded(PutTag(a, tag, limit), limit)
  {
    FlushedWithin(a, limit);
  }

  lemma {:induction false} InTimeBounded(tokens: seq<Token>, a: Acc, limit: nat)
    requires RunsFit(tokens, a.open, limit) && !TagOverfills(tokens, a, limit)
    requires Bounded(a, limit)
    ensures Bounded(Run(tokens, a, limit), limit)
  {
    if tokens != [] {
      PutTextKeepsOpen(tokens, a, limit);
      match tokens[0] {
        case Plain(s) => PutTextBounded(a, s, limit, limit);
        case Bracket(tag) => FittingTagBounded(a, tag, limit);
      }
      InTimeBounded(tokens[1..], Put(tokens[0], a, limit), limit);
    }
  }

  /** Where every tag fits beside what is reopened, only opening tags overfill a message. */
  lemma {:induction false} OnlyOpeningOverfills(tokens: seq<Token>, a: Acc, limit: nat)
    requires RunsFit(tokens, a.open, limit) && TagsFit(tokens, a.open, limit) && Bounded(a, limit)
    ensures TagOverfills(tokens, a, limit) <==> OpensTooLate(tokens, a, limit)
  {
    if tokens != [] {
      PutTextKeepsOpen(tokens, a, limit);
      var b := Put(tokens[0], a, limit);
      if tokens[0].Plain? {
        PutTextBounded(a, tokens[0].s, limit, limit);
        OnlyOpeningOverfills(tokens[1..], b, limit);
      } else {
        if !tokens[0].tag.Open? { PutTagBounded(a, tokens[0].tag, limit, 0); }
        if !Overfull(b, limit) {
          FittingTagBounded(a, tokens[0].tag, limit);
          OnlyOpeningOverfills(tokens[1..], b, limit);
        }
      }
    }
  }

  lemma {:induction false} TokensAreSolid(s: Text)
    ensures forall t | t in Tokenize(s) :: t.Plain? ==> t.s != ""
    decreases |s|
  {
    if s != [] {
      if s[0].Mark? {
        TokensAreSolid(s[1..]);
      } else {
        LeadingRunIsPrefix(s);
        TokensAreSolid(s[|LeadingRun(s)|..]);
      }
    }
  }

  /** For every text on which the splitter halts, some message is wider than the limit if and only if
      after some tag the message under construction, with its closers, is. */
  lemma ExceedsExactly(text: Text, limit: nat)
    requires Splittable(text, limit)
    ensures (exists c | c in Messages(text, limit) :: Width(c) > limit) <==>
            Width(Solidified(text)) > limit && TagOverfills(Tokenize(Solidified(text)), START, limit)
  {
    if Width(Solidified(text)) > limit {
      var tokens := Tokenize(Solidified(text));
      FinishedAreMessages(text, limit);
      if TagOverfills(tokens, START, limit) {
        TokensAreSolid(Solidified(text));
        OverfillingComesOut(tokens, START, limit);
      } else {
        InTimeBounded(tokens, START, limit);
        FlushedWithin(Run(tokens, START, limit), limit);
      }
    }
  }

  /** Where the markup for cutting and each tag fit the limit, that tag is always one that is opened
      where it fits and its own closer does not. */
  lemma ExceedsByOpeningExactly(text: Text, limit: nat)
    requires Splittable(text, limit)
    requires Width(Solidified(text)) > limit ==> TagsFit(Tokenize(Solidified(text)), [], limit)
    ensures (exists c | c in Messages(text, limit) :: Width(c) > limit) <==>
            Width(Solidified(text)) > limit && OpensTooLate(Tokenize(Solidified(text)), START, limit)
  {
    ExceedsExactly(text, limit);
    if Width(Solidified(text)) > limit { OnlyOpeningOverfills(Tokenize(Solidified(text)), START, limit); }
  }

  lemma FinishedAreMessages(text: Text, limit: nat)
    requires Splittable(text, limit) && Width(Solidified(text)) > limit
    ensures Messages(text, limit) == Finished(Run(Tokenize(Solidified(text)), START, limit)).chunks
  {
    var tokens := Tokenize(Solidified(text));
    RunSound(tokens, START, limit);
    var a := LastFlush(Run(tokens, START, limit));
    DropBlankKeepsClosed(a.chunks);
  }
}
