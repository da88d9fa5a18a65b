/** The HTML splitter ends a message only where the next piece does not fit. */
module SplitterFilling {
  import opened Trim
  import opened Markup
  import opened HtmlSplitter
  import opened SplitterLimits

  /** Each token, appended in turn to what is there, fits together with the closers of the elements
      open before it. */
  ghost predicate Fitting(tokens: seq<Token>, current: Text, limit: nat) {
    forall k | 0 <= k < |tokens| :: TokenFits(tokens, current, limit, k)
  }

  predicate TokenFits(tokens: seq<Token>, current: Text, limit: nat, k: nat)
    requires k < |tokens|
  {
    Width(current + Flatten(tokens[..k + 1])) + Width(Closing(After(current + Flatten(tokens[..k]), []))) <= limit
  }

  lemma FlattenFirst(token: Token, rest: seq<Token>)
    ensures Flatten([token] + rest) == Flatten([token]) + Flatten(rest)
  {
    assert ([token] + rest)[1..] == rest && [token][1..] == [];
  }

  lemma FittingRest(tokens: seq<Token>, current: Text, limit: nat)
    requires tokens != [] && Fitting(tokens, current, limit)
    ensures Fitting(tokens[1..], current + Flatten([tokens[0]]), limit)
  {
    var rest, next := tokens[1..], current + Flatten([tokens[0]]);
    forall k | 0 <= k < |rest| ensures TokenFits(rest, next, limit, k) {
      assert TokenFits(tokens, current, limit, k + 1);
      TakenTogether(tokens, current, k);
      TakenTogether(tokens, current, k + 1);
    }
  }

  lemma TakenTogether(tokens: seq<Token>, current: Text, k: nat)
    requires k < |tokens|
    ensures current + Flatten([tokens[0]]) + Flatten(tokens[1..][..k]) == current + Flatten(tokens[..k + 1])
  {
    assert tokens[..k + 1] == [tokens[0]] + tokens[1..][..k];
    FlattenFirst(tokens[0], tokens[1..][..k]);
    Associate(current, Flatten([tokens[0]]), Flatten(tokens[1..][..k]));
  }

  lemma FittingTokenIsAppended(token: Token, a: Acc, limit: nat)
    requires RunsFit([token], a.open, limit) && Sound(a)
    requires Width(a.current + Flatten([token])) + Width(Closing(a.open)) <= limit
    ensures Put(token, a, limit) == Acc(a.chunks, a.current + Flatten([token]), TokenEnter(a.open, token))
  {
    WidthConcat(a.current, Flatten([token]));
    match token
    case Plain(s) =>
      assert Flatten([token]) == Chars(s) + [] == Chars(s);
      WidthChars(s);
      if s != "" {
        RoundThatFits(a, s, limit);
      } else {
        assert a.current + Chars("") == a.current;
      }
    case Bracket(tag) =>
      assert Flatten([token]) == [Mark(tag)];
      assert Width([Mark(tag)]) == |tag.raw|;
  }

  lemma FirstFits(tokens: seq<Token>, a: Acc, limit: nat)
    requires tokens != [] && RunsFit(tokens, a.open, limit) && Sound(a) && Fitting(tokens, a.current, limit)
    ensures RunsFit([tokens[0]], a.open, limit)
    ensures var b := Put(tokens[0], a, limit);
            b == Acc(a.chunks, a.current + Flatten([tokens[0]]), TokenEnter(a.open, tokens[0])) && Sound(b) &&
            Fitting(tokens[1..], b.current, limit)
  {
    assert TokenFits(tokens, a.current, limit, 0) && tokens[..1] == [tokens[0]] && tokens[..0] == [];
    assert a.current + [] == a.current;
    PutTextKeepsOpen(tokens, a, limit);
    FittingTokenIsAppended(tokens[0], a, limit);
    PutSound(tokens[0], a, limit);
    FittingRest(tokens, a.current, limit);
  }

  /** While everything fits, no message ends. */
  lemma {:induction false} FittingIsAppended(tokens: seq<Token>, a: Acc, limit: nat)
    requires RunsFit(tokens, a.open, limit) && Sound(a) && Fitting(tokens, a.current, limit)
    ensures var b := Run(tokens, a, limit); b.chunks == a.chunks && b.current == a.current + Flatten(tokens) && Sound(b)
  {
    if tokens == [] {
      assert a.current + [] == a.current;
    } else {
      FirstFits(tokens, a, limit);
      var b := Put(tokens[0], a, limit);
      FittingIsAppended(tokens[1..], b, limit);
      Associate(a.current, Flatten([tokens[0]]), Flatten(tokens[1..]));
      assert tokens == [tokens[0]] + tokens[1..];
      FlattenFirst(tokens[0], tokens[1..]);
    }
  }

  lemma RunConcat(tokens: seq<Token>, later: seq<Token>, a: Acc, limit: nat)
    requires RunsFit(tokens + later, a.open, limit)
    ensures RunsFit(tokens, a.open, limit) && RunsFit(later, Run(tokens, a, limit).open, limit)
    ensures Run(tokens + later, a, limit) == Run(later, Run(tokens, a, limit), limit)
  {
    if tokens == [] {
      assert tokens + later == later;
    } else {
      assert (tokens + later)[0] == tokens[0] && (tokens + later)[1..] == tokens[1..] + later;
      PutTextKeepsOpen(tokens + later, a, limit);
      RunConcat(tokens[1..], later, Put(tokens[0], a, limit), limit);
    }
  }

  // ---------------------------------------------------------------- the message that is being built

  /** Message number `i` shows `shown` first: it is finished, or under construction. */
  ghost predicate ShowsFirst(a: Acc, i: nat, shown: seq<(Sym, seq<Frame>)>) {
    if i < |a.chunks| then shown <= Reading(a.chunks[i], []) else i == |a.chunks| && shown <= Reading(a.current, [])
  }

  lemma FlushShows(a: Acc, i: nat, shown: seq<(Sym, seq<Frame>)>)
    requires Sound(a) && ShowsFirst(a, i, shown)
    ensures ShowsFirst(Flush(a), i, shown)
  {
    if Solidified(a.current) != [] {
      var chunk := ChunkReads(a.current, a.open);
    } else {
      ReadStrip(a.current, []);
    }
  }

  lemma AppendShows(a: Acc, piece: Text, i: nat, shown: seq<(Sym, seq<Frame>)>, open: seq<Frame>)
    requires Sound(a) && ShowsFirst(a, i, shown)
    ensures ShowsFirst(Acc(a.chunks, a.current + piece, open), i, shown)
  {
    ReadConcat(a.current, piece, []);
  }

  lemma TagShows(a: Acc, tag: Tag, limit: nat, i: nat, shown: seq<(Sym, seq<Frame>)>)
    requires Sound(a) && ShowsFirst(a, i, shown)
    ensures ShowsFirst(PutTag(a, tag, limit), i, shown)
  {
    FlushSound(a);
    FlushShows(a, i, shown);
    var open := PutTag(a, tag, limit).open;
    AppendShows(a, [Mark(tag)], i, shown, open);
    AppendShows(Flush(a), [Mark(tag)], i, shown, open);
  }

  lemma RoundShows(a: Acc, remaining: string, limit: nat, i: nat, shown: seq<(Sym, seq<Frame>)>)
    requires Sound(a) && ShowsFirst(a, i, shown) && remaining != "" && Overhead(a.open) < limit
    ensures ShowsFirst(TextRound(a, remaining, limit).0, i, shown)
  {
    var available := Room(a, limit);
    if available >= |remaining| {
      RoundThatFits(a, remaining, limit);
      AppendShows(a, Chars(remaining), i, shown, a.open);
    } else if available <= 0 {
      RoundThatFlushes(a, remaining, limit);
      FlushShows(a, i, shown);
    } else {
      var cut := BreakPoint(remaining, available);
      RoundThatCuts(a, remaining, limit, cut);
      var piece := Chars(remaining[..cut]);
      var b := a.(current := a.current + piece);
      AppendShows(a, piece, i, shown, a.open);
      ReadChars(remaining[..cut], a.open);
      AppendSound(a, piece);
      FlushShows(b, i, shown);
    }
  }

  lemma {:induction false} TextShows(a: Acc, remaining: string, limit: nat, i: nat, shown: seq<(Sym, seq<Frame>)>)
    requires Sound(a) && ShowsFirst(a, i, shown) && (remaining != "" ==> Overhead(a.open) < limit)
    ensures ShowsFirst(PutText(a, remaining, limit), i, shown)
    decreases |remaining|, Room(a, limit) <= 0
  {
    if remaining != "" {
      RoundProgress(a, remaining, limit);
      RoundShows(a, remaining, limit, i, shown);
      var piece := RoundSound(a, remaining, limit);
      var (b, rest) := TextRound(a, remaining, limit);
      TextShows(b, rest, limit, i, shown);
    }
  }

  lemma {:induction false} RunShows(tokens: seq<Token>, a: Acc, limit: nat, i: nat, shown: seq<(Sym, seq<Frame>)>)
    requires RunsFit(tokens, a.open, limit) && Sound(a) && ShowsFirst(a, i, shown)
    ensures ShowsFirst(Run(tokens, a, limit), i, shown)
  {
    if tokens != [] {
      PutTextKeepsOpen(tokens, a, limit);
      PutSound(tokens[0], a, limit);
      match tokens[0] {
        case Plain(s) => TextShows(a, s, limit, i, shown);
        case Bracket(tag) => TagShows(a, tag, limit, i, shown);
      }
      RunShows(tokens[1..], Put(tokens[0], a, limit), limit, i, shown);
    }
  }

  lemma FinishShows(a: Acc, i: nat, shown: seq<(Sym, seq<Frame>)>)
    requires Sound(a) && ShowsFirst(a, i, shown) && shown != []
    ensures var chunks := Finished(a).chunks; i < |chunks| && shown <= Reading(chunks[i], [])
  {
    FlushShows(a, i, shown);
    ReadStrip(a.current, []);
    ReadReopening(a.open);
  }

  /** From any state of the splitter on: what fits behind the message under construction, token by
      token, is shown by that message, be it the first or a later one that begins with reopened tags. */
  lemma MessageTakesWhatFits(tokens: seq<Token>, a: Acc, limit: nat, n: nat)
    requires n <= |tokens| && RunsFit(tokens, a.open, limit) && Sound(a)
    requires Fitting(tokens[..n], a.current, limit)
    ensures var shown := Reading(a.current + Flatten(tokens[..n]), []);
            var chunks := Finished(Run(tokens, a, limit)).chunks;
            shown != [] ==> |a.chunks| < |chunks| && shown <= Reading(chunks[|a.chunks|], [])
  {
    var now, later := tokens[..n], tokens[n..];
    assert tokens == now + later;
    RunConcat(now, later, a, limit);
    FittingIsAppended(now, a, limit);
    var b := Run(now, a, limit);
    var shown := Reading(b.current, []);
    RunSound(later, b, limit);
    RunShows(later, b, limit, |a.chunks|, shown);
    if shown != [] { FinishShows(Run(later, b, limit), |a.chunks|, shown); }
  }

  /** A text that fits is one message, as it is. */
  lemma FittingTextIsOneMessage(text: Text, limit: nat)
    requires 0 < Width(Solidified(text)) <= limit
    ensures Messages(text, limit) == [Solidified(text)]
  {
  }

  // ---------------------------------------------------------------- the first message

  /** There is something to show or to flush. */
  ghost predicate Begun(a: Acc) {
    a.chunks != [] || Solidified(a.current) != []
  }

  lemma SolidPiece(current: Text, piece: Text)
    requires Solidified(current) != [] || exists i | 0 <= i < |piece| :: !IsBlank(piece[i])
    ensures Solidified(current + piece) != []
  {
    var s := current + piece;
    if Solidified(s) == [] {
      StripEmpty(s, IsBlank);
      assert forall i | 0 <= i < |piece| :: piece[i] == s[|current| + i];
      assert forall i | 0 <= i < |current| :: current[i] == s[i];
      StripBlank(current, IsBlank);
      assert false;
    }
  }

  lemma FlushBegun(a: Acc)
    requires Sound(a) && Begun(a)
    ensures Flush(a).chunks != []
  {
    if Solidified(a.current) != [] { var chunk := ChunkReads(a.current, a.open); }
  }

  lemma TagBegun(a: Acc, tag: Tag, limit: nat)
    ensures Begun(PutTag(a, tag, limit))
  {
    SolidTag(a.current, tag);
    SolidTag(Flush(a).current, tag);
  }

  lemma SolidTag(current: Text, tag: Tag)
    ensures Solidified(current + [Mark(tag)]) != []
  {
    assert !IsBlank([Mark(tag)][0]);
    SolidPiece(current, [Mark(tag)]);
  }

  lemma RoundBegun(a: Acc, remaining: string, limit: nat)
    requires Sound(a) && remaining != "" && Overhead(a.open) < limit
    requires Begun(a) || (Room(a, limit) > 0 && !IsSpace(remaining[0]))
    ensures Begun(TextRound(a, remaining, limit).0)
  {
    var available := Room(a, limit);
    if available >= |remaining| {
      RoundThatFits(a, remaining, limit);
      SolidRun(a, remaining);
    } else if available <= 0 {
      RoundThatFlushes(a, remaining, limit);
      FlushBegun(a);
    } else {
      var cut := BreakPoint(remaining, available);
      RoundThatCuts(a, remaining, limit, cut);
      SolidRun(a, remaining[..cut]);
      ReadChars(remaining[..cut], a.open);
      AppendSound(a, Chars(remaining[..cut]));
      FlushBegun(a.(current := a.current + Chars(remaining[..cut])));
    }
  }

  lemma SolidRun(a: Acc, run: string)
    requires run != "" && (Begun(a) || !IsSpace(run[0]))
    ensures Begun(a.(current := a.current + Chars(run)))
  {
    if a.chunks == [] {
      assert !IsSpace(run[0]) ==> !IsBlank(Chars(run)[0]);
      SolidPiece(a.current, Chars(run));
    }
  }

  lemma {:induction false} TextBegun(a: Acc, remaining: string, limit: nat)
    requires Sound(a) && (remaining != "" ==> Overhead(a.open) < limit)
    requires Begun(a) || (Room(a, limit) > 0 && remaining != "" && !IsSpace(remaining[0]))
    ensures Begun(PutText(a, remaining, limit))
    decreases |remaining|, Room(a, limit) <= 0
  {
    if remaining != "" {
      RoundProgress(a, remaining, limit);
      RoundBegun(a, remaining, limit);
      var piece := RoundSound(a, remaining, limit);
      var (b, rest) := TextRound(a, remaining, limit);
      TextBegun(b, rest, limit);
    }
  }

  lemma {:induction false} RunBegun(tokens: seq<Token>, a: Acc, limit: nat)
    requires RunsFit(tokens, a.open, limit) && Sound(a) && Begun(a)
    ensures Begun(Run(tokens, a, limit))
  {
    if tokens != [] {
      PutTextKeepsOpen(tokens, a, limit);
      PutSound(tokens[0], a, limit);
      match tokens[0] {
        case Plain(s) => TextBegun(a, s, limit);
        case Bracket(tag) => TagBegun(a, tag, limit);
      }
      RunBegun(tokens[1..], Put(tokens[0], a, limit), limit);
    }
  }

  /** A text that does not fit makes at least one message. */
  lemma LongTextHasMessages(text: Text, limit: nat)
    requires Splittable(text, limit) && Width(Solidified(text)) > limit
    ensures Messages(text, limit) == Finished(Run(Tokenize(Solidified(text)), START, limit)).chunks != []
  {
    var normalized := Solidified(text);
    var tokens := Tokenize(normalized);
    StripTrimmed(text, IsBlank);
    PutTextKeepsOpen(tokens, START, limit);
    PutSound(tokens[0], START, limit);
    match tokens[0] {
      case Plain(s) => TextBegun(START, s, limit);
      case Bracket(tag) => TagBegun(START, tag, limit);
    }
    var b := Put(tokens[0], START, limit);
    RunBegun(tokens[1..], b, limit);
    RunSound(tokens, START, limit);
    var a := LastFlush(Run(tokens, START, limit));
    FlushBegun(Run(tokens, START, limit));
    DropBlankKeepsClosed(a.chunks);
  }

  /** The first message of a text that needs several shows every leading token that fits. */
  lemma FirstMessageTakesWhatFits(text: Text, limit: nat, n: nat)
    requires Splittable(text, limit) && Width(Solidified(text)) > limit && n <= |Tokenize(Solidified(text))|
    requires Fitting(Tokenize(Solidified(text))[..n], [], limit)
    ensures Messages(text, limit) != []
    ensures Reading(Flatten(Tokenize(Solidified(text))[..n]), []) <= Reading(Messages(text, limit)[0], [])
  {
    var tokens := Tokenize(Solidified(text));
    LongTextHasMessages(text, limit);
    MessageTakesWhatFits(tokens, START, limit, n);
    assert [] + Flatten(tokens[..n]) == Flatten(tokens[..n]);
  }

  // ---------------------------------------------------------------- every step

  /** The width of the piece that the machine handles next: the rest of the run, or the tag. */
  function InHand(m: Machine): nat {
    if m.remaining != "" then |m.remaining|
    else if m.todo != [] && m.todo[0].Bracket? then |m.todo[0].tag.raw|
    else 0
  }

  /** A step of the loops ends at most one message, and only where what is built, the piece in hand
      and the closers together exceed the limit. If there is room for a part of a run, the message
      takes that run up to the best cut, and the rest begins behind the cut and its blanks. */
  lemma MessagesEndWhereTheyMust(m: Machine, limit: nat)
    requires Sound(m.acc)
    ensures var n := Next(m, limit);
            n.acc.chunks != m.acc.chunks ==>
              (exists chunk :: n.acc.chunks == m.acc.chunks + [chunk]) &&
              Width(m.acc.current) + InHand(m) + Width(Closing(m.acc.open)) > limit
    ensures var n := Next(m, limit);
            m.remaining != "" && 0 < Room(m.acc, limit) < |m.remaining| ==>
              exists cut | 1 <= cut <= Room(m.acc, limit) :: CutStep(m, n, cut, Room(m.acc, limit))
  {
    if m.remaining != "" && 0 < Room(m.acc, limit) < |m.remaining| {
      var cut := BreakPoint(m.remaining, Room(m.acc, limit));
      BreakPointIsLast(m.remaining, Room(m.acc, limit));
      CutStepShows(m, Next(m, limit), cut, Room(m.acc, limit));
    }
  }

  ghost predicate CutStep(m: Machine, n: Machine, cut: nat, room: nat)
    requires cut <= |m.remaining|
  {
    && IsBestCut(m.remaining, room, cut)
    && n.remaining == LStrip(m.remaining[cut..], IsSpace) && n.todo == m.todo
    && Shown(n.acc) == Shown(m.acc.(current := m.acc.current + Chars(m.remaining[..cut])))
    && Reading(n.acc.current, []) == []
  }

  lemma CutStepShows(m: Machine, n: Machine, cut: nat, room: nat)
    requires Sound(m.acc) && cut <= |m.remaining| && IsBestCut(m.remaining, room, cut)
    requires (n.acc, n.remaining) == CutAt(m.acc, m.remaining, cut) && n.todo == m.todo
    ensures CutStep(m, n, cut, room)
  {
    var piece := Chars(m.remaining[..cut]);
    var b := m.acc.(current := m.acc.current + piece);
    ReadChars(m.remaining[..cut], m.acc.open);
    AppendSound(m.acc, piece);
    FlushSound(b);
    ReadReopening(b.open);
    assert Shown(b) + [] == Shown(b);
  }
}
